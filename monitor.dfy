/**
 * The monitor task's engine: the static battery records, the two targets
 * (1-based battery numbers, 0 for none), the charger-off flag, the decision
 * status word, the current offsets and the calibration request, with the
 * steps of one monitoring cycle as methods that update them in place.
 *
 * Every hardware reading is a parameter (a snapshot taken for the cycle),
 * as is the charger task's per-battery charging phase. Configuration values
 * come from the configuration record `cfg`. Each method is proved against
 * the specification functions of the other modules.
 */
module Monitor {
  import opened Types
  import opened SocModel
  import opened BatteryState
  import opened Ranking
  import opened Allocation
  import opened Calibration
  import opened Tracker
  import opened ObjDic

  /** A configuration record the monitor can work with: every capacity is 1..2330 Ah. */
  predicate ConfigOk(cfg: Config)
  {
    Shaped(cfg) && forall i | 0 <= i < NUM_BATS :: CapacityOk(cfg.batteryCapacity[i])
  }

  /**
   * computeSoC applied to a battery's readings: the (signed) voltage and
   * temperature are converted to the uint32_t parameters of computeSoC.
   */
  function OcvSoC(voltage: int, temperature: int, batteryType: int): (soc: int)
    ensures 0 <= soc <= FULL_SOC
  {
    ComputeSoC(ToU32(voltage), ToU32(temperature), batteryType)
  }

  /** The open-circuit SoC of every battery. */
  function OcvSocs(voltages: seq<int>, temperature: int, cfg: Config): (r: seq<int>)
    requires |voltages| == NUM_BATS && ConfigOk(cfg)
    ensures |r| == NUM_BATS && forall i | 0 <= i < NUM_BATS :: r[i] == OcvSoC(voltages[i], temperature, cfg.batteryType[i])
    ensures forall i | 0 <= i < NUM_BATS :: 0 <= r[i] <= FULL_SOC
  {
    seq(NUM_BATS, i requires 0 <= i < NUM_BATS => OcvSoC(voltages[i], temperature, cfg.batteryType[i]))
  }

  /** A battery as initGlobals leaves it: OCV SoC, counters cleared, isolated and in good health. */
  function Initial(b: Battery, ocvSoC: int, capacity: int): Battery
    requires 0 <= ocvSoC <= FULL_SOC && CapacityOk(capacity)
  {
    SetSoC(b, ocvSoC, capacity).(currentSteady := 0, isolationTime := 0, opState := Isolated, healthState := Good)
  }

  /**
   * initGlobals starts every battery present, isolated, with cleared
   * counters and with the SoC its open-circuit voltage gives, whatever the
   * record held before.
   */
  lemma InitialEffect(b: Battery, ocvSoC: int, capacity: int)
    requires RecordOk(b) && 0 <= ocvSoC <= FULL_SOC && CapacityOk(capacity)
    ensures var r := Initial(b, ocvSoC, capacity);
      && RecordOk(r) && r.soc == ocvSoC && SocOfCharge(r.charge, capacity) == ocvSoC
      && r.healthState == Good && r.opState == Isolated && r.currentSteady == 0 && r.isolationTime == 0
      && r.fillState == b.fillState
  {
    SetSoCConsistent(b, ocvSoC, capacity);
  }

  /** The current samples of a calibration: one int16_t reading per test and interface. */
  predicate SamplesOk(samples: seq<seq<int>>)
  {
    && |samples| == NUM_TESTS
    && (forall t | 0 <= t < NUM_TESTS :: |samples[t]| == NUM_IFS)
    && (forall t, i | 0 <= t < NUM_TESTS && 0 <= i < NUM_IFS :: IsI16(samples[t][i]))
  }

  /** The samples of interface i, in test order. */
  function Column(samples: seq<seq<int>>, i: int): (c: seq<int>)
    requires SamplesOk(samples) && 0 <= i < NUM_IFS
    ensures |c| == NUM_TESTS && forall t | 0 <= t < NUM_TESTS :: c[t] == samples[t][i]
  {
    seq(NUM_TESTS, t requires 0 <= t < NUM_TESTS => samples[t][i])
  }

  /** The offset calibration finds for every interface. */
  function Offsets(samples: seq<seq<int>>): (r: seq<int>)
    requires SamplesOk(samples)
    ensures |r| == NUM_IFS && forall i | 0 <= i < NUM_IFS :: r[i] == Offset(Column(samples, i))
  {
    seq(NUM_IFS, i requires 0 <= i < NUM_IFS => Offset(Column(samples, i)))
  }

  /** Every interface's samples with its offset removed. */
  function CorrectedColumns(samples: seq<seq<int>>): (r: seq<seq<int>>)
    requires SamplesOk(samples)
    ensures |r| == NUM_IFS
    ensures forall i | 0 <= i < NUM_IFS :: r[i] == Corrected(Column(samples, i), Offset(Column(samples, i)))
  {
    seq(NUM_IFS, i requires 0 <= i < NUM_IFS => Corrected(Column(samples, i), Offset(Column(samples, i))))
  }

  /** The switch settings of every calibration test, in order. */
  function Schedule(): (r: seq<seq<int>>)
    ensures |r| == NUM_TESTS && forall t | 0 <= t < NUM_TESTS :: r[t] == TestSwitches(t)
  {
    seq(NUM_TESTS, t requires 0 <= t < NUM_TESTS => TestSwitches(t))
  }

  /**
   * The batteries after a whole calibration: a battery ends Missing exactly
   * when it was Missing or an indicator reading showed it off; every battery
   * that ends present has the SoC of its open-circuit voltage, is isolated
   * and has both counters cleared.
   */
  lemma {:induction false} CalibrationOutcome(bats: seq<Battery>, indicators: seq<int>, ocv: seq<int>,
                                              capacities: seq<int>, i: int)
    requires |bats| == |ocv| == |capacities| && 0 <= i < |bats|
    requires forall j | 0 <= j < |bats| :: RecordOk(bats[j]) && CapacityOk(capacities[j]) && 0 <= ocv[j] <= FULL_SOC
    ensures var r := Finalise(MarkAll(bats, indicators, capacities)[i], ocv[i], capacities[i]);
      && RecordOk(r)
      && (r.healthState == Missing <==> bats[i].healthState == Missing || EverOff(indicators, i))
      && (EverOff(indicators, i) ==> r.soc == 0 && r.charge == 0)
      && (r.healthState != Missing ==>
            r.soc == ocv[i] && r.opState == Isolated && r.currentSteady == 0 && r.isolationTime == 0)
  {
    MarkAllEffect(bats, indicators, capacities, i);
    FinaliseEffect(MarkAll(bats, indicators, capacities)[i], ocv[i], capacities[i]);
  }

  /** A target after the missing-battery check: released when it names a Missing battery. */
  function Released(bats: seq<Battery>, t: int): (r: int)
    ensures r == 0 || r == t
    ensures 1 <= t <= |bats| ==> (r == 0 <==> t == 0 || bats[t - 1].healthState == Missing)
  {
    if 1 <= t <= |bats| && bats[t - 1].healthState == Missing then 0 else t
  }

  /** Every battery after the missing-battery check: a Missing battery has its SoC and charge set to 0. */
  function DropAll(bats: seq<Battery>, capacities: seq<int>): (r: seq<Battery>)
    requires |capacities| == |bats| && forall i | 0 <= i < |bats| :: CapacityOk(capacities[i])
    ensures |r| == |bats|
  {
    seq(|bats|, i requires 0 <= i < |bats| =>
      if bats[i].healthState == Missing then SetSoC(bats[i], 0, capacities[i]) else bats[i])
  }

  /** Every battery after Coulomb counting: each present one updated with the thresholds of the configuration. */
  function CountAll(bats: seq<Battery>, accumulated: seq<int>, voltages: seq<int>, phases: seq<ChargingPhase>,
                    cfg: Config, weakVoltage: int): (r: seq<Battery>)
    requires ConfigOk(cfg) && |bats| == NUM_BATS
    requires |accumulated| == NUM_BATS && |voltages| == NUM_BATS && |phases| == NUM_BATS
    ensures |r| == NUM_BATS
  {
    seq(NUM_BATS, i requires 0 <= i < NUM_BATS =>
      if bats[i].healthState == Missing then bats[i]
      else CoulombUpdate(bats[i], accumulated[i], cfg.batteryCapacity[i], voltages[i], phases[i],
                         Thresholds(cfg.lowVoltage, cfg.criticalVoltage, cfg.lowSoC, cfg.criticalSoC), weakVoltage))
  }

  /** Every battery after the resync step, with ocv the open-circuit SoC of each. */
  function ResyncEvery(bats: seq<Battery>, currents: seq<int>, ocv: seq<int>, cfg: Config): (r: seq<Battery>)
    requires ConfigOk(cfg) && cfg.monitorDelay > 0
    requires |bats| == NUM_BATS && |currents| == NUM_BATS && |ocv| == NUM_BATS
    requires forall i | 0 <= i < NUM_BATS :: 0 <= ocv[i] <= FULL_SOC
    ensures |r| == NUM_BATS
  {
    seq(NUM_BATS, i requires 0 <= i < NUM_BATS =>
      Resync(bats[i], currents[i], MonitorHour(cfg.monitorDelay), ocv[i], cfg.batteryCapacity[i]))
  }

  /**
   * One of the two bubble sorts of the ranking, in place on the list of
   * battery numbers: after it the list is Sort of the original over
   * n-1 passes, for the given swap test.
   */
  method BubbleSort(a: array<int>, o: Order)
    requires a.Length >= 1 && ValidIds(a[..], Size(o))
    modifies a
    ensures a[..] == Sort(old(a[..]), a.Length - 1, o)
  {
    ghost var start := a[..];
    var i := 0;
    while i < a.Length - 1
      invariant 0 <= i <= a.Length - 1
      invariant a[..] == Sort(start, i, o)
    {
      BubblePass(a, a.Length - i - 1, o);
      i := i + 1;
    }
  }

  /** The inner loop of a bubble sort: compare-and-swap at positions 0..m-1. */
  method BubblePass(a: array<int>, m: int, o: Order)
    requires 0 <= m < a.Length && ValidIds(a[..], Size(o))
    modifies a
    ensures a[..] == Pass(old(a[..]), m, o)
  {
    ghost var before := a[..];
    var k := 0;
    while k < m
      invariant 0 <= k <= m
      invariant a[..] == Pass(before, k, o)
    {
      ghost var current := a[..];
      if ShouldSwap(o, a[k], a[k + 1]) {
        a[k], a[k + 1] := a[k + 1], a[k];
        assert a[..] == Swap(current, k);
      }
      k := k + 1;
    }
  }

  /** A scan that stops at ids[i] finds Pick's battery. */
  lemma PickAt(ids: seq<int>, ok: int -> bool, i: int)
    requires 0 <= i < |ids| && ok(ids[i])
    requires forall j | 0 <= j < i :: !ok(ids[j])
    ensures Pick(ids, ok) == ids[i]
  {
    var k := FirstIndex(ids, ok);
    if k < i {
      assert false;
    }
  }

  /** A scan that finds nothing agrees with Pick. */
  lemma PickNone(ids: seq<int>, ok: int -> bool)
    requires forall j | 0 <= j < |ids| :: !ok(ids[j])
    ensures Pick(ids, ok) == 0
  {
    var k := FirstIndex(ids, ok);
    if k < |ids| {
      assert false;
    }
  }

  /** The scan over the first numBats ranked batteries, highest SoC first, that stops at the first one passing ok. */
  method FirstFromHighest(sort: seq<int>, numBats: int, ok: int -> bool) returns (r: int)
    requires 0 <= numBats <= |sort| && ValidIds(sort, NUM_BATS)
    ensures r == Pick(sort[..numBats], ok)
    ensures 0 <= r <= NUM_BATS
  {
    var i := 0;
    while i < numBats
      invariant 0 <= i <= numBats
      invariant forall j | 0 <= j < i :: !ok(sort[j])
    {
      if ok(sort[i]) {
        PickAt(sort[..numBats], ok, i);
        return sort[i];
      }
      i := i + 1;
    }
    PickNone(sort[..numBats], ok);
    return 0;
  }

  /** The same scan from the lowest-SoC battery up. */
  method FirstFromLowest(sort: seq<int>, numBats: int, ok: int -> bool) returns (r: int)
    requires 0 <= numBats <= |sort| && ValidIds(sort, NUM_BATS)
    ensures r == Pick(LowFirst(sort, numBats), ok)
    ensures 0 <= r <= NUM_BATS
  {
    ghost var low := LowFirst(sort, numBats);
    var i := 0;
    while i < numBats
      invariant 0 <= i <= numBats
      invariant forall j | 0 <= j < i :: !ok(low[j])
    {
      var index := sort[numBats - i - 1];
      if ok(index) {
        PickAt(low, ok, i);
        return index;
      }
      i := i + 1;
    }
    PickNone(low, ok);
    return 0;
  }

  class MonitorEngine {
    var battery: array<Battery>
    /** Battery number (1..3) holding the charger, 0 for none. */
    var batteryUnderCharge: int
    /** Battery number (1..3) holding the loads, 0 for none. */
    var batteryUnderLoad: int
    var chargerOff: bool
    /** The record of which decision rules fired in the last cycle. */
    var decisionStatus: bv16
    /** Current offsets of the six interfaces: batteries, loads, panel. */
    var currentOffsets: array<int>
    var calibrate: bool

    ghost predicate Valid()
      reads this, battery, currentOffsets
    {
      && battery.Length == NUM_BATS
      && currentOffsets.Length == NUM_IFS
      && (forall i | 0 <= i < NUM_BATS :: RecordOk(battery[i]))
      && 0 <= batteryUnderCharge <= NUM_BATS
      && 0 <= batteryUnderLoad <= NUM_BATS
    }

    /** The zero-initialised static state. */
    constructor ()
      ensures Valid() && fresh(battery) && fresh(currentOffsets)
      ensures battery[..] == seq(NUM_BATS, _ => ZERO_BATTERY)
      ensures currentOffsets[..] == seq(NUM_IFS, _ => 0)
      ensures batteryUnderCharge == 0 && batteryUnderLoad == 0
      ensures !chargerOff && decisionStatus == 0 && !calibrate
    {
      battery := new Battery[NUM_BATS](_ => ZERO_BATTERY);
      currentOffsets := new int[NUM_IFS](_ => 0);
      batteryUnderCharge := 0;
      batteryUnderLoad := 0;
      chargerOff := false;
      decisionStatus := 0;
      calibrate := false;
    }

    // -------------------------------------------------------------------
    // Setters used by the other tasks

    /** setBatterySoC on battery i, with the capacity from the configuration. */
    method SetBatterySoC(i: int, soc: int, cfg: Config)
      requires Valid() && ConfigOk(cfg) && 0 <= i < NUM_BATS && 0 <= soc <= FULL_SOC
      modifies battery
      ensures Valid()
      ensures battery[..] == old(battery[..])[i := SetSoC(old(battery[i]), soc, cfg.batteryCapacity[i])]
      ensures battery[i].soc == soc && SocOfCharge(battery[i].charge, cfg.batteryCapacity[i]) == soc
    {
      SetSoCConsistent(battery[i], soc, cfg.batteryCapacity[i]);
      battery[i] := SetSoC(battery[i], soc, cfg.batteryCapacity[i]);
    }

    /** resetBatterySoC: 100%, and Faulty when the SoC was below 100%. */
    method ResetBatterySoC(i: int, cfg: Config)
      requires Valid() && ConfigOk(cfg) && 0 <= i < NUM_BATS
      modifies battery
      ensures Valid()
      ensures battery[..] == old(battery[..])[i := ResetSoC(old(battery[i]), cfg.batteryCapacity[i])]
    {
      var b := battery[i];
      if b.soc < FULL_SOC {
        b := b.(fillState := Faulty);
      }
      SetSoCConsistent(b, FULL_SOC, cfg.batteryCapacity[i]);
      battery[i] := SetSoC(b, FULL_SOC, cfg.batteryCapacity[i]);
    }

    /** setBatteryMissing: the health becomes Missing, or Good when cleared. */
    method SetBatteryMissing(i: int, missing: bool)
      requires Valid() && 0 <= i < NUM_BATS
      modifies battery
      ensures Valid()
      ensures battery[..] == old(battery[..])[i := SetMissing(old(battery[i]), missing)]
    {
      if missing {
        battery[i] := battery[i].(healthState := Missing);
      } else {
        battery[i] := battery[i].(healthState := Good);
      }
    }

    /** startCalibration: request a calibration at the start of the next cycle. */
    method StartCalibration()
      modifies this
      ensures calibrate
      ensures battery == old(battery) && currentOffsets == old(currentOffsets)
      ensures batteryUnderCharge == old(batteryUnderCharge) && batteryUnderLoad == old(batteryUnderLoad)
      ensures chargerOff == old(chargerOff) && decisionStatus == old(decisionStatus)
    {
      calibrate := true;
    }

    /**
     * initGlobals: every battery starts as Initial gives it, both targets
     * are cleared, calibration is off and the offsets are loaded from the
     * configuration record.
     */
    method InitGlobals(voltages: seq<int>, temperature: int, od: ObjectDictionary)
      requires Valid() && od.Valid() && ConfigOk(od.config) && |voltages| == NUM_BATS
      modifies this, battery, currentOffsets
      ensures Valid() && battery == old(battery) && currentOffsets == old(currentOffsets)
      ensures forall i | 0 <= i < NUM_BATS ::
        battery[i] == Initial(old(battery[i]), OcvSocs(voltages, temperature, od.config)[i], od.config.batteryCapacity[i])
      ensures currentOffsets[..] == od.config.currentOffsets
      ensures batteryUnderCharge == 0 && batteryUnderLoad == 0 && !calibrate
      ensures chargerOff == old(chargerOff) && decisionStatus == old(decisionStatus)
    {
      calibrate := false;
      InitBatteries(OcvSocs(voltages, temperature, od.config), od.config);
      batteryUnderLoad := 0;
      batteryUnderCharge := 0;
      LoadOffsets(od);
    }

    /** The battery loop of initGlobals. */
    method InitBatteries(ocv: seq<int>, cfg: Config)
      requires Valid() && ConfigOk(cfg) && |ocv| == NUM_BATS
      requires forall i | 0 <= i < NUM_BATS :: 0 <= ocv[i] <= FULL_SOC
      modifies battery
      ensures Valid()
      ensures forall i | 0 <= i < NUM_BATS :: battery[i] == Initial(old(battery[i]), ocv[i], cfg.batteryCapacity[i])
    {
      var i := 0;
      while i < NUM_BATS
        invariant 0 <= i <= NUM_BATS && Valid()
        invariant forall j | 0 <= j < i :: battery[j] == Initial(old(battery[j]), ocv[j], cfg.batteryCapacity[j])
        invariant forall j | i <= j < NUM_BATS :: battery[j] == old(battery[j])
      {
        InitialEffect(battery[i], ocv[i], cfg.batteryCapacity[i]);
        SetBatterySoC(i, ocv[i], cfg);
        battery[i] := battery[i].(currentSteady := 0, isolationTime := 0, opState := Isolated, healthState := Good);
        i := i + 1;
      }
    }

    /** The offset loop of initGlobals: each interface's offset from the configuration record. */
    method LoadOffsets(od: ObjectDictionary)
      requires Valid() && od.Valid()
      modifies currentOffsets
      ensures Valid() && currentOffsets[..] == od.config.currentOffsets
    {
      var i := 0;
      while i < NUM_IFS
        invariant 0 <= i <= NUM_IFS && Valid()
        invariant forall j | 0 <= j < i :: currentOffsets[j] == od.config.currentOffsets[j]
      {
        currentOffsets[i] := od.GetCurrentOffset(i);
        i := i + 1;
      }
    }

    // -------------------------------------------------------------------
    // Calibration (lines 129-246)

    /**
     * The switch settings of one test: every line opened, then load 2 on
     * battery test+1 for the first three tests, load 1 on battery test-2
     * for the next three, and nothing for the last.
     */
    method TestSettings(test: int) returns (settings: seq<int>)
      requires 0 <= test < NUM_TESTS
      ensures settings == TestSwitches(test)
    {
      settings := [];
      var i := 0;
      while i < LINES
        invariant 0 <= i <= LINES && settings == seq(i, _ => 0)
      {
        settings := settings + [0];
        i := i + 1;
      }
      if test < NUM_BATS {
        settings := settings[1 := test + 1];
      } else if test < NUM_TESTS - 1 {
        settings := settings[0 := test - NUM_BATS + 1];
      }
    }

    /** The indicator check of one test: a battery whose indicator bit 1 is clear becomes Missing with SoC 0. */
    method MarkMissing(indicators: int, cfg: Config)
      requires Valid() && ConfigOk(cfg)
      modifies battery
      ensures Valid()
      ensures battery[..] == MarkTest(old(battery[..]), indicators, cfg.batteryCapacity)
    {
      ghost var start := battery[..];
      var i := 0;
      while i < NUM_BATS
        invariant 0 <= i <= NUM_BATS && Valid()
        invariant forall j | 0 <= j < i ::
          battery[j] == MarkBattery(start[j], IndicatorOff(indicators, j), cfg.batteryCapacity[j])
        invariant forall j | i <= j < NUM_BATS :: battery[j] == start[j]
      {
        if (indicators / Pow4(i)) % 4 < 2 {
          battery[i] := battery[i].(healthState := Missing);
          SetBatterySoC(i, 0, cfg);
        }
        i := i + 1;
      }
      assert battery[..] == MarkTest(start, indicators, cfg.batteryCapacity);
    }

    /**
     * The test loop: for each test the switch settings, the indicator check
     * and the recording of every interface's current into the results table.
     */
    method RunTests(indicators: seq<int>, samples: seq<seq<int>>, cfg: Config, results: array2<int>)
      returns (switches: seq<seq<int>>)
      requires Valid() && ConfigOk(cfg) && |indicators| == NUM_TESTS && SamplesOk(samples)
      requires results.Length0 == NUM_TESTS && results.Length1 == NUM_IFS
      modifies battery, results
      ensures Valid()
      ensures battery[..] == MarkAll(old(battery[..]), indicators, cfg.batteryCapacity)
      ensures forall t, i | 0 <= t < NUM_TESTS && 0 <= i < NUM_IFS :: results[t, i] == samples[t][i]
      ensures switches == Schedule()
    {
      ghost var start := battery[..];
      switches := [];
      var test := 0;
      while test < NUM_TESTS
        invariant 0 <= test <= NUM_TESTS && Valid()
        invariant battery[..] == MarkAll(start, indicators[..test], cfg.batteryCapacity)
        invariant forall t, i | 0 <= t < test && 0 <= i < NUM_IFS :: results[t, i] == samples[t][i]
        invariant |switches| == test && forall t | 0 <= t < test :: switches[t] == TestSwitches(t)
      {
        var settings := TestSettings(test);
        switches := switches + [settings];
        MarkMissing(indicators[test], cfg);
        assert indicators[..test + 1][..test] == indicators[..test];
        RecordTest(results, test, samples[test]);
        test := test + 1;
      }
      assert indicators[..NUM_TESTS] == indicators;
    }

    /** Every interface's current of one test recorded into its row of the results table. */
    static method RecordTest(results: array2<int>, test: int, row: seq<int>)
      requires results.Length0 == NUM_TESTS && results.Length1 == NUM_IFS
      requires 0 <= test < NUM_TESTS && |row| == NUM_IFS
      modifies results
      ensures forall t, j | 0 <= t < NUM_TESTS && 0 <= j < NUM_IFS ::
        results[t, j] == if t == test then row[j] else old(results[t, j])
    {
      var i := 0;
      while i < NUM_IFS
        invariant 0 <= i <= NUM_IFS
        invariant forall t, j | 0 <= t < NUM_TESTS && 0 <= j < NUM_IFS ::
          results[t, j] == if t == test && j < i then row[j] else old(results[t, j])
      {
        results[test, i] := row[i];
        i := i + 1;
      }
    }

    /** The minimum search of one interface: the smallest sample strictly between -50 and 100, else 0. */
    method MinimumOffset(results: array2<int>, i: int, ghost samples: seq<int>) returns (offset: int)
      requires results.Length0 == NUM_TESTS && results.Length1 == NUM_IFS && 0 <= i < NUM_IFS
      requires |samples| == NUM_TESTS && forall t | 0 <= t < NUM_TESTS :: results[t, i] == samples[t]
      ensures offset == Offset(samples)
    {
      offset := OFFSET_START_VALUE;
      var test := 0;
      while test < NUM_TESTS
        invariant 0 <= test <= NUM_TESTS && offset == MinScan(samples[..test])
      {
        assert samples[..test + 1][..test] == samples[..test];
        var current := results[test, i];
        if current > CALIBRATION_THRESHOLD {
          if current < offset {
            offset := current;
          }
        }
        test := test + 1;
      }
      assert samples[..NUM_TESTS] == samples;
      if offset == OFFSET_START_VALUE {
        offset := 0;
      }
    }

    /**
     * The offset pass: each interface's offset is found and stored, and then
     * removed from that interface's column of results.
     */
    method ComputeOffsets(samples: seq<seq<int>>, results: array2<int>)
      requires Valid() && SamplesOk(samples)
      requires results.Length0 == NUM_TESTS && results.Length1 == NUM_IFS
      requires forall t, i | 0 <= t < NUM_TESTS && 0 <= i < NUM_IFS :: results[t, i] == samples[t][i]
      modifies currentOffsets, results
      ensures Valid()
      ensures currentOffsets[..] == Offsets(samples)
      ensures forall t, i | 0 <= t < NUM_TESTS && 0 <= i < NUM_IFS :: results[t, i] == CorrectedColumns(samples)[i][t]
    {
      var i := 0;
      while i < NUM_IFS
        invariant 0 <= i <= NUM_IFS && Valid()
        invariant forall j | 0 <= j < i :: currentOffsets[j] == Offset(Column(samples, j))
        invariant forall t, j | 0 <= t < NUM_TESTS && 0 <= j < i :: results[t, j] == CorrectedColumns(samples)[j][t]
        invariant forall t, j | 0 <= t < NUM_TESTS && i <= j < NUM_IFS :: results[t, j] == samples[t][j]
      {
        var offset := MinimumOffset(results, i, Column(samples, i));
        currentOffsets[i] := offset;
        RemoveOffset(samples, results, i, offset);
        i := i + 1;
      }
    }

    /** Interface i's offset removed from its column of results, in int16_t arithmetic. */
    method RemoveOffset(samples: seq<seq<int>>, results: array2<int>, i: int, offset: int)
      requires SamplesOk(samples) && 0 <= i < NUM_IFS && offset == Offset(Column(samples, i))
      requires results.Length0 == NUM_TESTS && results.Length1 == NUM_IFS
      requires forall t | 0 <= t < NUM_TESTS :: results[t, i] == samples[t][i]
      modifies results
      ensures forall t, j | 0 <= t < NUM_TESTS && 0 <= j < NUM_IFS && j != i :: results[t, j] == old(results[t, j])
      ensures forall t | 0 <= t < NUM_TESTS :: results[t, i] == CorrectedColumns(samples)[i][t]
    {
      var test := 0;
      while test < NUM_TESTS
        invariant 0 <= test <= NUM_TESTS
        invariant forall t, j | 0 <= t < NUM_TESTS && 0 <= j < NUM_IFS && j != i :: results[t, j] == old(results[t, j])
        invariant forall t | 0 <= t < test :: results[t, i] == CorrectedColumns(samples)[i][t]
        invariant forall t | test <= t < NUM_TESTS :: results[t, i] == samples[t][i]
      {
        results[test, i] := ToI16(results[test, i] - offset);
        test := test + 1;
      }
    }

    /**
     * The quiescent current: the largest corrected battery-interface result
     * above -50 over the batteries that are not Missing, or -100.
     */
    method QuiescentCurrent(results: array2<int>, ghost columns: seq<seq<int>>) returns (quiescent: int)
      requires Valid() && results.Length0 == NUM_TESTS && results.Length1 == NUM_IFS
      requires |columns| == NUM_BATS && forall i | 0 <= i < NUM_BATS :: |columns[i]| == NUM_TESTS
      requires forall t, i | 0 <= t < NUM_TESTS && 0 <= i < NUM_BATS :: results[t, i] == columns[i][t]
      ensures quiescent == Quiescent(columns, MissingFlags(battery[..]))
    {
      ghost var missing := MissingFlags(battery[..]);
      quiescent := QUIESCENT_START;
      var i := 0;
      while i < NUM_BATS
        invariant 0 <= i <= NUM_BATS
        invariant quiescent == MaxScan(QUIESCENT_START, QuiescentSamples(columns[..i], missing[..i]))
      {
        ghost var before := quiescent;
        assert columns[..i + 1][..i] == columns[..i] && missing[..i + 1][..i] == missing[..i];
        if battery[i].healthState != Missing {
          var test := 0;
          while test < NUM_TESTS
            invariant 0 <= test <= NUM_TESTS && quiescent == MaxScan(before, columns[i][..test])
          {
            assert columns[i][..test + 1][..test] == columns[i][..test];
            var current := results[test, i];
            if current > CALIBRATION_THRESHOLD {
              if current > quiescent {
                quiescent := current;
              }
            }
            test := test + 1;
          }
          assert columns[i][..NUM_TESTS] == columns[i];
        }
        MaxScanConcat(QUIESCENT_START, QuiescentSamples(columns[..i], missing[..i]), if missing[i] then [] else columns[i]);
        i := i + 1;
      }
      assert columns[..NUM_BATS] == columns && missing[..NUM_BATS] == missing;
    }

    /** The closing battery loop: present batteries take their OCV SoC, are isolated and have their counters cleared. */
    method FinaliseBatteries(ocv: seq<int>, cfg: Config)
      requires Valid() && ConfigOk(cfg) && |ocv| == NUM_BATS
      requires forall i | 0 <= i < NUM_BATS :: 0 <= ocv[i] <= FULL_SOC
      modifies battery
      ensures Valid()
      ensures forall i | 0 <= i < NUM_BATS :: battery[i] == Finalise(old(battery[i]), ocv[i], cfg.batteryCapacity[i])
    {
      var i := 0;
      while i < NUM_BATS
        invariant 0 <= i <= NUM_BATS && Valid()
        invariant forall j | 0 <= j < i :: battery[j] == Finalise(old(battery[j]), ocv[j], cfg.batteryCapacity[j])
        invariant forall j | i <= j < NUM_BATS :: battery[j] == old(battery[j])
      {
        if battery[i].healthState != Missing {
          FinaliseEffect(battery[i], ocv[i], cfg.batteryCapacity[i]);
          SetBatterySoC(i, ocv[i], cfg);
          battery[i] := battery[i].(currentSteady := 0, isolationTime := 0, opState := Isolated);
        }
        i := i + 1;
      }
    }

    /** Calibration starts from zero offsets. */
    method ZeroOffsets()
      requires Valid()
      modifies currentOffsets
      ensures Valid() && currentOffsets[..] == seq(NUM_IFS, _ => 0)
    {
      var i := 0;
      while i < NUM_IFS
        invariant 0 <= i <= NUM_IFS && Valid()
        invariant forall j | 0 <= j < i :: currentOffsets[j] == 0
      {
        currentOffsets[i] := 0;
        i := i + 1;
      }
    }

    /** Stores every offset in the configuration record and writes the block to flash. */
    method SaveOffsets(od: ObjectDictionary)
      requires Valid() && od.Valid()
      modifies od
      ensures od.Valid()
      ensures od.config == old(od.config).(currentOffsets := currentOffsets[..], validBlock := VALID_BLOCK)
      ensures od.flashBlock == od.config
    {
      var i := 0;
      while i < NUM_IFS
        invariant 0 <= i <= NUM_IFS && od.Valid()
        invariant od.config == old(od.config).(currentOffsets := od.config.currentOffsets)
        invariant forall j | 0 <= j < i :: od.config.currentOffsets[j] == currentOffsets[j]
        invariant forall j | i <= j < NUM_IFS :: od.config.currentOffsets[j] == old(od.config).currentOffsets[j]
      {
        od.SetCurrentOffset(i, currentOffsets[i]);
        i := i + 1;
      }
      assert od.config.currentOffsets == currentOffsets[..];
      od.WriteConfigBlock();
    }

    /**
     * A calibration sequence. The batteries end as CalibrationOutcome
     * describes; the offsets are the per-interface minima, stored in the
     * configuration record and written to flash; the quiescent current is
     * the maximum corrected battery current over the batteries left
     * present; both targets are cleared and the request is withdrawn.
     */
    method Calibrate(indicators: seq<int>, samples: seq<seq<int>>, voltages: seq<int>, temperature: int,
                     od: ObjectDictionary)
      returns (switches: seq<seq<int>>, quiescent: int)
      requires Valid() && od.Valid() && ConfigOk(od.config)
      requires |indicators| == NUM_TESTS && SamplesOk(samples) && |voltages| == NUM_BATS
      modifies this, battery, currentOffsets, od
      ensures Valid() && battery == old(battery) && currentOffsets == old(currentOffsets)
      ensures var marked := MarkAll(old(battery[..]), indicators, old(od.config).batteryCapacity);
        var ocv := OcvSocs(voltages, temperature, old(od.config));
        && (forall i | 0 <= i < NUM_BATS :: battery[i] == Finalise(marked[i], ocv[i], old(od.config).batteryCapacity[i]))
        && quiescent == Quiescent(CorrectedColumns(samples)[..NUM_BATS], MissingFlags(marked))
      ensures currentOffsets[..] == Offsets(samples)
      ensures od.config == old(od.config).(currentOffsets := Offsets(samples), validBlock := VALID_BLOCK)
      ensures od.flashBlock == od.config
      ensures switches == Schedule()
      ensures batteryUnderCharge == 0 && batteryUnderLoad == 0 && !calibrate
    {
      var cfg := od.config;
      ghost var start := battery[..];
      ZeroOffsets();
      var results := new int[NUM_TESTS, NUM_IFS];
      switches := RunTests(indicators, samples, cfg, results);
      ghost var marked := battery[..];
      assert marked == MarkAll(start, indicators, cfg.batteryCapacity);
      ComputeOffsets(samples, results);
      quiescent := QuiescentCurrent(results, CorrectedColumns(samples)[..NUM_BATS]);
      assert MissingFlags(battery[..]) == MissingFlags(marked);
      FinaliseBatteries(OcvSocs(voltages, temperature, cfg), cfg);
      batteryUnderLoad := 0;
      batteryUnderCharge := 0;
      SaveOffsets(od);
      calibrate := false;
    }

    // -------------------------------------------------------------------
    // One monitoring cycle (lines 329-912)

    /**
     * Missing batteries get SoC 0 and lose any target pointing at them, so
     * afterwards both targets are 0 or name a present battery.
     */
    method DropMissing(cfg: Config)
      requires Valid() && ConfigOk(cfg)
      modifies this, battery
      ensures Valid() && Unmoved()
      ensures forall i | 0 <= i < NUM_BATS ::
        battery[i] == (if old(battery[i]).healthState == Missing then SetSoC(old(battery[i]), 0, cfg.batteryCapacity[i])
                       else old(battery[i]))
      ensures battery[..] == DropAll(old(battery[..]), cfg.batteryCapacity)
      ensures batteryUnderCharge == Released(old(battery[..]), old(batteryUnderCharge))
      ensures batteryUnderLoad == Released(old(battery[..]), old(batteryUnderLoad))
      ensures TargetOk(battery[..], batteryUnderCharge) && TargetOk(battery[..], batteryUnderLoad)
      ensures chargerOff == old(chargerOff) && decisionStatus == old(decisionStatus)
    {
      ghost var start := battery[..];
      var i := 0;
      while i < NUM_BATS
        invariant 0 <= i <= NUM_BATS && Valid() && Unmoved()
        invariant forall j | 0 <= j < i ::
          battery[j] == (if start[j].healthState == Missing then SetSoC(start[j], 0, cfg.batteryCapacity[j]) else start[j])
        invariant forall j | i <= j < NUM_BATS :: battery[j] == start[j]
        invariant batteryUnderCharge == (if 1 <= old(batteryUnderCharge) <= i then Released(start, old(batteryUnderCharge))
                                         else old(batteryUnderCharge))
        invariant batteryUnderLoad == (if 1 <= old(batteryUnderLoad) <= i then Released(start, old(batteryUnderLoad))
                                       else old(batteryUnderLoad))
        invariant chargerOff == old(chargerOff) && decisionStatus == old(decisionStatus)
      {
        DropOne(i, cfg);
        i := i + 1;
      }
    }

    /** The missing-battery check for battery i. */
    method DropOne(i: int, cfg: Config)
      requires Valid() && ConfigOk(cfg) && 0 <= i < NUM_BATS
      modifies this, battery
      ensures Valid() && Unmoved()
      ensures var b := old(battery[i]);
        battery[..] == old(battery[..])[i := if b.healthState == Missing then SetSoC(b, 0, cfg.batteryCapacity[i]) else b]
      ensures var missing := old(battery[i]).healthState == Missing;
        && batteryUnderCharge == (if missing && old(batteryUnderCharge) == i + 1 then 0 else old(batteryUnderCharge))
        && batteryUnderLoad == (if missing && old(batteryUnderLoad) == i + 1 then 0 else old(batteryUnderLoad))
      ensures chargerOff == old(chargerOff) && decisionStatus == old(decisionStatus)
    {
      if battery[i].healthState == Missing {
        SetBatterySoC(i, 0, cfg);
        if batteryUnderLoad == i + 1 {
          batteryUnderLoad := 0;
        }
        if batteryUnderCharge == i + 1 {
          batteryUnderCharge := 0;
        }
      }
    }

    /** The number of batteries present: NUM_BATS less one for each Missing battery. */
    method CountBatteries() returns (numBats: int)
      requires Valid()
      ensures numBats == NumPresent(MissingFlags(battery[..]))
      ensures 0 <= numBats <= NUM_BATS
    {
      ghost var flags := MissingFlags(battery[..]);
      numBats := NUM_BATS;
      var i := 0;
      while i < NUM_BATS
        invariant 0 <= i <= NUM_BATS
        invariant numBats == NUM_BATS - i + NumPresent(flags[..i])
      {
        assert flags[..i + 1][..i] == flags[..i];
        if battery[i].healthState == Missing {
          numBats := numBats - 1;
        }
        i := i + 1;
      }
      assert flags[..NUM_BATS] == flags;
    }

    /**
     * Coulomb counting for every present battery: each one becomes
     * CoulombUpdate of its record with the thresholds of the configuration;
     * Missing batteries are untouched, and which batteries are Missing does
     * not change.
     */
    method CoulombCount(accumulated: seq<int>, voltages: seq<int>, phases: seq<ChargingPhase>,
                        cfg: Config, weakVoltage: int)
      requires Valid() && ConfigOk(cfg)
      requires |accumulated| == NUM_BATS && |voltages| == NUM_BATS && |phases| == NUM_BATS
      requires forall i | 0 <= i < NUM_BATS :: IsI16(accumulated[i])
      modifies battery
      ensures Valid()
      ensures forall i | 0 <= i < NUM_BATS ::
        battery[i] == (if old(battery[i]).healthState == Missing then old(battery[i])
                       else CoulombUpdate(old(battery[i]), accumulated[i], cfg.batteryCapacity[i], voltages[i], phases[i],
                                          Thresholds(cfg.lowVoltage, cfg.criticalVoltage, cfg.lowSoC, cfg.criticalSoC),
                                          weakVoltage))
      ensures battery[..] == CountAll(old(battery[..]), accumulated, voltages, phases, cfg, weakVoltage)
      ensures MissingFlags(battery[..]) == MissingFlags(old(battery[..]))
      ensures TargetOk(old(battery[..]), batteryUnderCharge) ==> TargetOk(battery[..], batteryUnderCharge)
      ensures TargetOk(old(battery[..]), batteryUnderLoad) ==> TargetOk(battery[..], batteryUnderLoad)
    {
      var th := Thresholds(cfg.lowVoltage, cfg.criticalVoltage, cfg.lowSoC, cfg.criticalSoC);
      ghost var start := battery[..];
      var i := 0;
      while i < NUM_BATS
        invariant 0 <= i <= NUM_BATS && Valid()
        invariant forall j | 0 <= j < i ::
          battery[j] == (if start[j].healthState == Missing then start[j]
                         else CoulombUpdate(start[j], accumulated[j], cfg.batteryCapacity[j], voltages[j], phases[j],
                                            th, weakVoltage))
        invariant forall j | i <= j < NUM_BATS :: battery[j] == start[j]
        invariant forall j | 0 <= j < NUM_BATS :: (battery[j].healthState == Missing) == (start[j].healthState == Missing)
      {
        if battery[i].healthState != Missing {
          CoulombOne(i, accumulated[i], cfg.batteryCapacity[i], voltages[i], phases[i], th, weakVoltage);
        }
        i := i + 1;
      }
    }

    /** Coulomb counting, fill classification and the dropout test for battery i. */
    method CoulombOne(i: int, accumulated: int, capacity: int, voltage: int, phase: ChargingPhase,
                      th: Thresholds, weakVoltage: int)
      requires Valid() && 0 <= i < NUM_BATS && IsI16(accumulated) && CapacityOk(capacity)
      requires battery[i].healthState != Missing
      modifies battery
      ensures Valid()
      ensures battery[..] == old(battery[..])[i := CoulombUpdate(old(battery[i]), accumulated, capacity, voltage, phase,
                                                                   th, weakVoltage)]
      ensures battery[i].healthState != Missing
    {
      var b := battery[i];
      CoulombUpdateBounds(b, accumulated, capacity, voltage, phase, th, weakVoltage);
      var charge := b.charge + accumulated;
      if charge < 0 {
        charge := 0;
      }
      if charge > ChargeMax(capacity) {
        charge := ChargeMax(capacity);
      }
      var soc := charge / (capacity * 36);
      var absVoltage := ToU16(Abs(voltage));
      var fill := ClassifyFill(absVoltage, soc, th);
      var health := b.healthState;
      if absVoltage < weakVoltage {
        health := Weak;
        fill := Critical;
        soc := 0;
      }
      if phase == Rest {
        health := Good;
      }
      battery[i] := b.(charge := charge, soc := soc, fillState := fill, healthState := health);
    }

    /**
     * The ranking: battery numbers 1..3 bubble-sorted by descending SoC,
     * then bubble-sorted to move Missing batteries to the end. The result is
     * a ranking in the sense of IsRanking (RankCorrect).
     */
    method RankBatteries() returns (sort: seq<int>)
      requires Valid()
      ensures sort == Rank(Socs(battery[..]), MissingFlags(battery[..]))
      ensures RankedFor(sort, NumPresent(MissingFlags(battery[..])), battery[..])
    {
      var a := new int[NUM_BATS](k => k + 1);
      assert a[..] == Ids(NUM_BATS);
      BubbleSort(a, BySoc(Socs(battery[..])));
      BubbleSort(a, MissingLast(MissingFlags(battery[..])));
      sort := a[..];
      RankCorrect(Socs(battery[..]), MissingFlags(battery[..]));
    }

    /**
     * The longest-isolated battery among positions below numBats: the first
     * present one with the largest isolation time above 0, or 0.
     */
    method LongestIsolated(numBats: int) returns (longest: int)
      requires Valid() && 0 <= numBats <= NUM_BATS
      ensures longest == LongestScan(battery[..], numBats).0
    {
      longest := 0;
      var longestTime := 0;
      var i := 0;
      while i < numBats
        invariant 0 <= i <= numBats
        invariant (longest, longestTime) == LongestScan(battery[..], i)
      {
        if battery[i].healthState != Missing && battery[i].isolationTime > longestTime {
          longestTime := battery[i].isolationTime;
          longest := i + 1;
        }
        i := i + 1;
      }
    }

    /** The decision fields as a Decision, with the charging phases of the cycle. */
    function Current(phases: seq<ChargingPhase>): Decision
      reads this
    {
      Decision(batteryUnderCharge, batteryUnderLoad, chargerOff, decisionStatus, phases)
    }

    /** The battery records, the offsets and the calibration request stay as they were. */
    twostate predicate Unmoved()
      reads this
    {
      battery == old(battery) && currentOffsets == old(currentOffsets) && calibrate == old(calibrate)
    }

    /**
     * Rule 1 of the preliminary decisions over the ranked batteries: a
     * present battery in float below floatBulkSoC goes to bulk.
     */
    method RestartBulk(sort: seq<int>, numBats: int, phases0: seq<ChargingPhase>, floatBulkSoC: int)
      returns (phases: seq<ChargingPhase>)
      requires Valid() && |phases0| == NUM_BATS && RankedFor(sort, numBats, battery[..])
      ensures phases == FloatToBulk(battery[..], phases0, floatBulkSoC)
    {
      RankedArePresent(sort, numBats, battery[..]);
      ghost var target := FloatToBulk(battery[..], phases0, floatBulkSoC);
      phases := phases0;
      var i := 0;
      while i < numBats
        invariant 0 <= i <= numBats && |phases| == NUM_BATS
        invariant forall j | 0 <= j < NUM_BATS :: phases[j] == target[j] || phases[j] == phases0[j]
        invariant forall j | 0 <= j < NUM_BATS && j + 1 in sort[..i] :: phases[j] == target[j]
      {
        assert sort[..i + 1] == sort[..i] + [sort[i]];
        var index := sort[i];
        FloatToBulkEffect(battery[..], phases0, floatBulkSoC, index - 1);
        if battery[index - 1].healthState != Missing && phases[index - 1] == Float
           && battery[index - 1].soc < floatBulkSoC {
          phases := phases[index - 1 := Bulk];
        }
        i := i + 1;
      }
      forall j | 0 <= j < NUM_BATS
        ensures phases[j] == target[j]
      {
        FloatToBulkEffect(battery[..], phases0, floatBulkSoC, j);
        if j + 1 !in sort[..numBats] {
          assert !Present(battery[..], j + 1);
        }
      }
    }

    /**
     * The preliminary decisions: the status word cleared, float batteries
     * restarted in bulk, a charge target in float or rest released, the
     * charger off unless a present battery is below the panel voltage, and
     * off when every present battery is in float.
     */
    method PreliminaryDecisions(sort: seq<int>, numBats: int, rd: Readings, floatBulkSoC: int)
      returns (phases: seq<ChargingPhase>)
      requires Valid() && ReadingsFit(rd, battery[..]) && RankedFor(sort, numBats, battery[..])
      modifies this
      ensures Valid() && Unmoved()
      ensures Current(phases) == Preliminary(battery[..], rd, floatBulkSoC, sort, numBats,
                                             old(batteryUnderCharge), old(batteryUnderLoad))
    {
      RankedArePresent(sort, numBats, battery[..]);
      decisionStatus := 0;
      phases := RestartBulk(sort, numBats, rd.phases, floatBulkSoC);
      ReleaseFinished(phases);
      SwitchCharger(sort, numBats, rd, phases);
    }

    /** A charge target whose battery is in float or rest is released. */
    method ReleaseFinished(phases: seq<ChargingPhase>)
      requires Valid() && |phases| == NUM_BATS
      modifies this
      ensures Valid() && Unmoved()
      ensures var c := old(batteryUnderCharge);
        Current(phases) == old(Current(phases)).(charge := if c > 0 && Finished(phases, c) then 0 else c)
    {
      if batteryUnderCharge > 0 {
        if phases[batteryUnderCharge - 1] == Float || phases[batteryUnderCharge - 1] == Rest {
          batteryUnderCharge := 0;
        }
      }
    }

    /** The charger switched on or off by the panel voltage and the float phases. */
    method SwitchCharger(sort: seq<int>, numBats: int, rd: Readings, phases: seq<ChargingPhase>)
      requires Valid() && ReadingsFit(rd, battery[..]) && 0 <= numBats <= |sort| && ValidIds(sort, NUM_BATS)
      requires |phases| == NUM_BATS && decisionStatus == 0
      modifies this
      ensures Valid() && Unmoved()
      ensures Current(phases) == ChargerSwitch(battery[..], rd, sort, numBats, phases,
                                               old(batteryUnderCharge), old(batteryUnderLoad))
    {
      var bats := battery[..];
      chargerOff := true;
      var below := FirstFromHighest(sort, numBats, id => BelowPanel(bats, rd, id));
      if below != 0 {
        decisionStatus := AddBits(decisionStatus, CHARGER_ON);
        chargerOff := false;
      }
      if chargerOff {
        batteryUnderCharge := 0;
      }
      var active := FirstFromHighest(sort, numBats, id => 1 <= id <= |bats| && NotInFloat(bats, phases, id));
      if active == 0 {
        decisionStatus := AddBits(decisionStatus, ALL_IN_FLOAT);
        chargerOff := true;
        batteryUnderCharge := 0;
      }
    }

    /** One battery present: both targets on it, no load if it is weak. */
    method OneBattery(sort: seq<int>, phases: seq<ChargingPhase>)
      requires Valid() && |sort| >= 1 && ValidIds(sort, NUM_BATS)
      modifies this
      ensures Valid() && Unmoved()
      ensures Current(phases) == SingleBattery(battery[..], sort, old(Current(phases)))
    {
      var index := sort[0];
      decisionStatus := AddBits(decisionStatus, ONE_BATTERY);
      batteryUnderCharge := index;
      batteryUnderLoad := index;
      if battery[index - 1].healthState == Weak {
        decisionStatus := AddBits(decisionStatus, 0x40);
        batteryUnderLoad := 0;
      }
    }

    /** The charger rules for several batteries, applied while the charger is on. */
    method AllocateCharger(sort: seq<int>, numBats: int, longest: int, strategy: int, phases: seq<ChargingPhase>)
      requires Valid() && 2 <= numBats <= |sort| && ValidIds(sort, NUM_BATS) && |phases| == NUM_BATS
      modifies this
      ensures Valid() && Unmoved()
      ensures Current(phases) == ChargerRules(battery[..], sort, numBats, longest, strategy, old(Current(phases)))
    {
      if !chargerOff {
        UrgentChargerStep(sort, numBats, phases);
        SpareChargerStep(sort, numBats, longest, strategy, phases);
        LowerChargerStep(sort, numBats, phases);
      }
    }

    /** The charger released from, or given to, the lowest battery; then given to the lowest weak battery. */
    method UrgentChargerStep(sort: seq<int>, numBats: int, phases: seq<ChargingPhase>)
      requires Valid() && 2 <= numBats <= |sort| && ValidIds(sort, NUM_BATS)
      modifies this
      ensures Valid() && Unmoved()
      ensures Current(phases) == UrgentCharger(battery[..], sort, numBats, old(Current(phases)))
    {
      var bats := battery[..];
      var lowest := sort[numBats - 1];
      if battery[lowest - 1].fillState != Normal {
        batteryUnderCharge := 0;
      }
      if battery[lowest - 1].fillState == Critical {
        batteryUnderCharge := lowest;
        decisionStatus := AddBits(decisionStatus, 0x08);
      }
      var weak := FirstFromLowest(sort, numBats, id => WeakId(bats, id));
      if weak != 0 {
        batteryUnderCharge := weak;
        decisionStatus := AddBits(decisionStatus, 0x04);
      }
    }

    /** With no charge target, the charger goes to the lowest battery not in float or rest. */
    method SpareChargerStep(sort: seq<int>, numBats: int, longest: int, strategy: int, phases: seq<ChargingPhase>)
      requires Valid() && 2 <= numBats <= |sort| && ValidIds(sort, NUM_BATS)
      modifies this
      ensures Valid() && Unmoved()
      ensures Current(phases) == SpareCharger(sort, numBats, longest, strategy, old(Current(phases)))
    {
      if batteryUnderCharge == 0 && numBats > 2 {
        var spare := FirstFromLowest(sort, numBats, id => Chargeable(phases, id) && !Preserved(id, longest, strategy));
        if spare != 0 {
          decisionStatus := AddBits(decisionStatus, 0x01);
          batteryUnderCharge := spare;
        }
      }
      if batteryUnderCharge == 0 {
        var any := FirstFromLowest(sort, numBats, id => Chargeable(phases, id));
        if any != 0 {
          decisionStatus := AddBits(decisionStatus, 0x02);
          batteryUnderCharge := any;
        }
      }
    }

    /** A normal charge target moves to a battery more than 5% lower that is not in float or rest. */
    method LowerChargerStep(sort: seq<int>, numBats: int, phases: seq<ChargingPhase>)
      requires Valid() && 2 <= numBats <= |sort| && ValidIds(sort, NUM_BATS)
      modifies this
      ensures Valid() && Unmoved()
      ensures Current(phases) == LowerCharger(battery[..], sort, numBats, old(Current(phases)))
    {
      var bats := battery[..];
      var charge := batteryUnderCharge;
      if charge != 0 && battery[charge - 1].fillState == Normal {
        var lower := FirstFromLowest(sort, numBats,
                                     id => Chargeable(phases, id) && SocOfId(bats, charge) > SocOfId(bats, id) + SOC_HYSTERESIS);
        if lower != 0 {
          batteryUnderCharge := lower;
          decisionStatus := AddBits(decisionStatus, 0x03);
        }
      }
    }

    /** The load rules for several batteries up to the rescan. */
    method AllocateLoads(sort: seq<int>, numBats: int, longest: int, strategy: int, phases: seq<ChargingPhase>)
      requires Valid() && 2 <= numBats <= |sort| && ValidIds(sort, NUM_BATS)
      modifies this
      ensures Valid() && Unmoved()
      ensures Current(phases) == LoadSelection(battery[..], sort, numBats, longest, strategy, old(Current(phases)))
    {
      ReleaseLoadStep(strategy, phases);
      ChooseLoadStep(sort, numBats, longest, strategy, phases);
    }

    /** The load released from the separated charge target, a weak battery or one that is not normal. */
    method ReleaseLoadStep(strategy: int, phases: seq<ChargingPhase>)
      requires Valid()
      modifies this
      ensures Valid() && Unmoved()
      ensures Current(phases) == ReleaseLoad(battery[..], strategy, old(Current(phases)))
    {
      if batteryUnderLoad == batteryUnderCharge && HasBit(strategy, SEPARATE_LOAD) {
        batteryUnderLoad := 0;
      }
      if batteryUnderLoad != 0 && battery[batteryUnderLoad - 1].healthState == Weak {
        batteryUnderLoad := 0;
      }
      if batteryUnderLoad != 0 && battery[batteryUnderLoad - 1].fillState != Normal {
        batteryUnderLoad := 0;
      }
    }

    /** With no load target, the loads go to the highest battery the strategy allows. */
    method ChooseLoadStep(sort: seq<int>, numBats: int, longest: int, strategy: int, phases: seq<ChargingPhase>)
      requires Valid() && 2 <= numBats <= |sort| && ValidIds(sort, NUM_BATS)
      modifies this
      ensures Valid() && Unmoved()
      ensures Current(phases) == ChooseLoad(battery[..], sort, numBats, longest, strategy, old(Current(phases)))
    {
      SpareLoadStep(sort, numBats, longest, strategy, phases);
      FallbackLoadStep(sort, numBats, strategy, phases);
    }

    /** With more than two batteries, first spare the preserved battery. */
    method SpareLoadStep(sort: seq<int>, numBats: int, longest: int, strategy: int, phases: seq<ChargingPhase>)
      requires Valid() && 2 <= numBats <= |sort| && ValidIds(sort, NUM_BATS)
      modifies this
      ensures Valid() && Unmoved()
      ensures Current(phases) == SpareLoad(battery[..], sort, numBats, longest, strategy, old(Current(phases)))
    {
      var bats := battery[..];
      var charge := batteryUnderCharge;
      if batteryUnderLoad == 0 && numBats > 2 {
        var spare := FirstFromHighest(sort, numBats,
                                      id => !WeakId(bats, id) && !Preserved(id, longest, strategy) && !Separated(id, charge, strategy));
        if spare != 0 {
          batteryUnderLoad := spare;
          decisionStatus := AddBits(decisionStatus, 0x10);
        }
      }
    }

    /** Then any battery not separated from the charger, then any battery that is not weak. */
    method FallbackLoadStep(sort: seq<int>, numBats: int, strategy: int, phases: seq<ChargingPhase>)
      requires Valid() && 2 <= numBats <= |sort| && ValidIds(sort, NUM_BATS)
      modifies this
      ensures Valid() && Unmoved()
      ensures Current(phases) == FallbackLoad(battery[..], sort, numBats, strategy, old(Current(phases)))
    {
      var bats := battery[..];
      var charge := batteryUnderCharge;
      if batteryUnderLoad == 0 {
        var apart := FirstFromHighest(sort, numBats, id => !WeakId(bats, id) && !Separated(id, charge, strategy));
        if apart != 0 {
          batteryUnderLoad := apart;
          decisionStatus := AddBits(decisionStatus, 0x20);
        }
      }
      if batteryUnderLoad == 0 {
        var any := FirstFromHighest(sort, numBats, id => !WeakId(bats, id));
        if any != 0 {
          batteryUnderLoad := any;
          decisionStatus := AddBits(decisionStatus, 0x40);
        }
      }
    }

    /** The rescan of a load on a battery that is not normal. */
    method RescanLoad(sort: seq<int>, numBats: int, strategy: int, phases: seq<ChargingPhase>)
      requires Valid() && 2 <= numBats <= |sort| && ValidIds(sort, NUM_BATS)
      modifies this
      ensures Valid() && Unmoved()
      ensures Current(phases) == Rescan(battery[..], sort, numBats, strategy, old(Current(phases)))
    {
      var bats := battery[..];
      var charge := batteryUnderCharge;
      if batteryUnderLoad != 0 && battery[batteryUnderLoad - 1].fillState != Normal && charge != 0 {
        var chargeSoC := battery[charge - 1].soc;
        var better := FirstFromHighest(sort, numBats,
                                       id => !WeakId(bats, id) && !Separated(id, charge, strategy)
                                             && chargeSoC > SocOfId(bats, id) + SOC_HYSTERESIS);
        if better != 0 {
          batteryUnderLoad := better;
          decisionStatus := AddBits(decisionStatus, 0x30);
        }
      }
    }

    /** The final move of a load on a critical battery to a charge target that is not weak. */
    method OverrideLoad(phases: seq<ChargingPhase>)
      requires Valid()
      modifies this
      ensures Valid() && Unmoved()
      ensures Current(phases) == Override(battery[..], old(Current(phases)))
    {
      var charge := batteryUnderCharge;
      if charge != 0 && batteryUnderLoad != 0 && battery[charge - 1].healthState != Weak
         && battery[batteryUnderLoad - 1].fillState == Critical {
        batteryUnderLoad := charge;
        decisionStatus := AddBits(decisionStatus, 0x80);
      }
    }

    /**
     * All battery management decisions of the cycle. The targets, charger
     * switch, status word and phases are those Decide gives, so the
     * properties proved of Decide (LoadNeverWeak, ChargerOffRule and the
     * others) hold of the engine.
     */
    method Allocate(sort: seq<int>, numBats: int, longest: int, rd: Readings, floatBulkSoC: int, strategy: int)
      returns (phases: seq<ChargingPhase>)
      requires Valid() && ReadingsFit(rd, battery[..]) && RankedFor(sort, numBats, battery[..])
      modifies this
      ensures Valid() && Unmoved()
      ensures 0 <= numBats <= |sort| && ValidIds(sort, NUM_BATS)
      ensures Current(phases) == Decide(battery[..], rd, floatBulkSoC, strategy, sort, numBats, longest,
                                        old(batteryUnderCharge), old(batteryUnderLoad))
    {
      RankedArePresent(sort, numBats, battery[..]);
      phases := PreliminaryDecisions(sort, numBats, rd, floatBulkSoC);
      if numBats == 1 {
        OneBattery(sort, phases);
      } else if numBats > 1 {
        decisionStatus := AddBits(decisionStatus, MANY_BATTERIES);
        AllocateCharger(sort, numBats, longest, strategy, phases);
        AllocateLoads(sort, numBats, longest, strategy, phases);
        RescanLoad(sort, numBats, strategy, phases);
        OverrideLoad(phases);
      }
    }

    /** The operational state and isolation timer of every battery after the decisions. */
    method UpdateStates(ocv: seq<int>, cfg: Config)
      requires Valid() && ConfigOk(cfg) && cfg.monitorDelay > 0 && |ocv| == NUM_BATS
      requires forall i | 0 <= i < NUM_BATS :: 0 <= ocv[i] <= FULL_SOC
      modifies battery
      ensures Valid()
      ensures battery[..] == UpdateAll(old(battery[..]), batteryUnderCharge, batteryUnderLoad, ocv, cfg.batteryCapacity,
                                       IsolationLimit(cfg.monitorDelay))
      ensures forall i | 0 <= i < NUM_BATS ::
        battery[i].healthState == old(battery[i]).healthState && battery[i].fillState == old(battery[i]).fillState
      ensures forall i | 0 <= i < NUM_BATS && battery[i].healthState != Missing ::
        && (battery[i].opState == Charging <==> batteryUnderCharge == i + 1)
        && (battery[i].opState == Loaded <==> batteryUnderLoad == i + 1 && batteryUnderCharge != i + 1)
    {
      ghost var start := battery[..];
      var limit := IsolationLimit(cfg.monitorDelay);
      var i := 0;
      while i < NUM_BATS
        invariant 0 <= i <= NUM_BATS && Valid()
        invariant forall j | 0 <= j < i ::
          battery[j] == UpdateState(start[j], j, batteryUnderCharge, batteryUnderLoad, ocv[j], cfg.batteryCapacity[j], limit)
        invariant forall j | i <= j < NUM_BATS :: battery[j] == start[j]
        invariant forall j | 0 <= j < i ::
          battery[j].healthState == start[j].healthState && battery[j].fillState == start[j].fillState
        invariant forall j | 0 <= j < i && battery[j].healthState != Missing ::
          && (battery[j].opState == Charging <==> batteryUnderCharge == j + 1)
          && (battery[j].opState == Loaded <==> batteryUnderLoad == j + 1 && batteryUnderCharge != j + 1)
      {
        UpdateOne(i, ocv[i], cfg, limit);
        i := i + 1;
      }
    }

    /** The state update of battery i. */
    method UpdateOne(i: int, ocvSoC: int, cfg: Config, limit: int)
      requires Valid() && ConfigOk(cfg) && 0 <= i < NUM_BATS && 0 <= ocvSoC <= FULL_SOC
      modifies battery
      ensures Valid()
      ensures battery[..] == old(battery[..])[i := UpdateState(old(battery[i]), i, batteryUnderCharge, batteryUnderLoad,
                                                               ocvSoC, cfg.batteryCapacity[i], limit)]
      ensures battery[i].healthState == old(battery[i]).healthState && battery[i].fillState == old(battery[i]).fillState
      ensures battery[i].healthState != Missing ==>
        && (battery[i].opState == Charging <==> batteryUnderCharge == i + 1)
        && (battery[i].opState == Loaded <==> batteryUnderLoad == i + 1 && batteryUnderCharge != i + 1)
    {
      var b := battery[i];
      UpdateStateEffect(b, i, batteryUnderCharge, batteryUnderLoad, ocvSoC, cfg.batteryCapacity[i], limit);
      if b.healthState != Missing {
        var lastOpState := b.opState;
        b := b.(opState := Isolated);
        if batteryUnderLoad > 0 && batteryUnderLoad == i + 1 {
          b := b.(opState := Loaded);
        }
        if batteryUnderCharge > 0 && i == batteryUnderCharge - 1 {
          b := b.(opState := Charging);
        }
        if lastOpState == Isolated && b.opState != Isolated && b.isolationTime > limit {
          b := SetSoC(b, ocvSoC, cfg.batteryCapacity[i]).(isolationTime := 0);
        }
        if b.opState != Isolated || batteryUnderLoad == batteryUnderCharge {
          b := b.(isolationTime := TIMER_RESTART);
        }
        battery[i] := b;
      }
    }

    /** The resynchronisation of the SoC from the open-circuit voltage after idle time. */
    method ResyncAll(currents: seq<int>, ocv: seq<int>, cfg: Config)
      requires Valid() && ConfigOk(cfg) && cfg.monitorDelay > 0 && |currents| == NUM_BATS && |ocv| == NUM_BATS
      requires forall i | 0 <= i < NUM_BATS :: 0 <= ocv[i] <= FULL_SOC
      modifies battery
      ensures Valid()
      ensures forall i | 0 <= i < NUM_BATS ::
        battery[i] == Resync(old(battery[i]), currents[i], MonitorHour(cfg.monitorDelay), ocv[i], cfg.batteryCapacity[i])
      ensures forall i | 0 <= i < NUM_BATS ::
        && battery[i].healthState == old(battery[i]).healthState && battery[i].fillState == old(battery[i]).fillState
        && battery[i].opState == old(battery[i]).opState
    {
      var hour := MonitorHour(cfg.monitorDelay);
      var i := 0;
      while i < NUM_BATS
        invariant 0 <= i <= NUM_BATS && Valid()
        invariant forall j | 0 <= j < i ::
          battery[j] == Resync(old(battery[j]), currents[j], hour, ocv[j], cfg.batteryCapacity[j])
        invariant forall j | i <= j < NUM_BATS :: battery[j] == old(battery[j])
        invariant forall j | 0 <= j < i ::
          && battery[j].healthState == old(battery[j]).healthState && battery[j].fillState == old(battery[j]).fillState
          && battery[j].opState == old(battery[j]).opState
      {
        ResyncOne(i, currents[i], hour, ocv[i], cfg);
        i := i + 1;
      }
    }

    /** The resync step of battery i, with hour the number of cycles in an hour. */
    method ResyncOne(i: int, current: int, hour: int, ocvSoC: int, cfg: Config)
      requires Valid() && ConfigOk(cfg) && 0 <= i < NUM_BATS && 0 <= ocvSoC <= FULL_SOC
      requires 0 <= hour < 0x2000_0000
      modifies battery
      ensures Valid()
      ensures battery[..] == old(battery[..])[i := Resync(old(battery[i]), current, hour, ocvSoC, cfg.batteryCapacity[i])]
      ensures && battery[i].healthState == old(battery[i]).healthState && battery[i].fillState == old(battery[i]).fillState
              && battery[i].opState == old(battery[i]).opState
    {
      var b := battery[i];
      ResyncBounds(b, current, hour, ocvSoC, cfg.batteryCapacity[i]);
      if b.healthState != Missing {
        if Abs(current) < STEADY_CURRENT {
          b := b.(currentSteady := ToU16(b.currentSteady + 1));
        } else {
          b := b.(currentSteady := 0);
        }
        if b.currentSteady > hour {
          b := SetSoC(b, ocvSoC, cfg.batteryCapacity[i]).(currentSteady := 0);
        }
        b := b.(isolationTime := ToU32(b.isolationTime + 1));
        if b.isolationTime > ToU32(8 * hour) {
          b := SetSoC(b, ocvSoC, cfg.batteryCapacity[i]).(isolationTime := 0);
        }
        battery[i] := b;
      }
    }

    /**
     * One monitoring cycle after any calibration (lines 333-912): missing
     * batteries dropped, Coulomb counting, ranking, the decisions, the state
     * update, the switch plan and the resync. Afterwards both targets name a
     * present battery or none, the loads are never on a weak battery, a
     * present battery is Charging or Loaded exactly as the targets say, and
     * no battery has come or gone.
     */
    method Cycle(accumulated: seq<int>, voltages: seq<int>, currents: seq<int>, chargingPhases: seq<ChargingPhase>,
                 panelVoltage: int, temperature: int, cfg: Config, weakVoltage: int, temperatureLimit: int)
      returns (phases: seq<ChargingPhase>, plan: SwitchPlan,
               ghost counted: seq<Battery>, ghost sort: seq<int>, ghost numBats: int, ghost longest: int)
      requires Valid() && ConfigOk(cfg) && cfg.monitorDelay > 0
      requires |accumulated| == NUM_BATS && |voltages| == NUM_BATS && |currents| == NUM_BATS
      requires |chargingPhases| == NUM_BATS
      requires forall i | 0 <= i < NUM_BATS :: IsI16(accumulated[i])
      modifies this, battery
      ensures Valid() && Unmoved() && |phases| == NUM_BATS
      // The batteries counted, ranked and scanned before the decisions
      ensures counted == CountAll(DropAll(old(battery[..]), cfg.batteryCapacity), accumulated, voltages,
                                  chargingPhases, cfg, weakVoltage)
      ensures sort == Rank(Socs(counted), MissingFlags(counted)) && RankedFor(sort, numBats, counted)
      ensures longest == LongestScan(counted, numBats).0
      ensures 0 <= numBats <= |sort| && ValidIds(sort, NUM_BATS)
      // The decisions over them, starting from the targets the missing-battery check left
      ensures Current(phases) == Decide(counted, Readings(chargingPhases, voltages, panelVoltage), cfg.floatBulkSoC,
                                        cfg.monitorStrategy, sort, numBats, longest,
                                        Released(old(battery[..]), old(batteryUnderCharge)),
                                        Released(old(battery[..]), old(batteryUnderLoad)))
      // The state update and the resync of every battery
      ensures var ocv := OcvSocs(voltages, temperature, cfg);
        battery[..] == ResyncEvery(UpdateAll(counted, batteryUnderCharge, batteryUnderLoad, ocv,
                                             cfg.batteryCapacity, IsolationLimit(cfg.monitorDelay)),
                                   currents, ocv, cfg)
      ensures MissingFlags(battery[..]) == MissingFlags(old(battery[..]))
      ensures TargetOk(battery[..], batteryUnderCharge) && TargetOk(battery[..], batteryUnderLoad)
      ensures batteryUnderLoad != 0 ==> !WeakId(battery[..], batteryUnderLoad)
      ensures forall i | 0 <= i < NUM_BATS && battery[i].healthState != Missing ::
        && (battery[i].opState == Charging <==> batteryUnderCharge == i + 1)
        && (battery[i].opState == Loaded <==> batteryUnderLoad == i + 1 && batteryUnderCharge != i + 1)
      ensures plan == SwitchDecision(battery[..], batteryUnderLoad, batteryUnderCharge, temperature, temperatureLimit)
    {
      var ranked, present, isolated := PrepareCycle(accumulated, voltages, chargingPhases, cfg, weakVoltage);
      counted, sort, numBats, longest := battery[..], ranked, present, isolated;
      phases, plan := DecideAndFinish(ranked, present, isolated, voltages, currents, chargingPhases, panelVoltage,
                                      temperature, cfg, temperatureLimit);
    }

    /**
     * The decisions, the state update, the switch plan and the resync over
     * the counted and ranked batteries.
     */
    method DecideAndFinish(sort: seq<int>, numBats: int, longest: int, voltages: seq<int>, currents: seq<int>,
                           chargingPhases: seq<ChargingPhase>, panelVoltage: int, temperature: int, cfg: Config,
                           temperatureLimit: int)
      returns (phases: seq<ChargingPhase>, plan: SwitchPlan)
      requires Valid() && ConfigOk(cfg) && cfg.monitorDelay > 0
      requires |voltages| == NUM_BATS && |currents| == NUM_BATS && |chargingPhases| == NUM_BATS
      requires RankedFor(sort, numBats, battery[..])
      requires TargetOk(battery[..], batteryUnderCharge) && TargetOk(battery[..], batteryUnderLoad)
      modifies this, battery
      ensures Valid() && Unmoved() && |phases| == NUM_BATS
      ensures 0 <= numBats <= |sort| && ValidIds(sort, NUM_BATS)
      ensures Current(phases) == Decide(old(battery[..]), Readings(chargingPhases, voltages, panelVoltage),
                                        cfg.floatBulkSoC, cfg.monitorStrategy, sort, numBats, longest,
                                        old(batteryUnderCharge), old(batteryUnderLoad))
      ensures var ocv := OcvSocs(voltages, temperature, cfg);
        battery[..] == ResyncEvery(UpdateAll(old(battery[..]), batteryUnderCharge, batteryUnderLoad, ocv,
                                             cfg.batteryCapacity, IsolationLimit(cfg.monitorDelay)),
                                   currents, ocv, cfg)
      ensures MissingFlags(battery[..]) == MissingFlags(old(battery[..]))
      ensures TargetOk(battery[..], batteryUnderCharge) && TargetOk(battery[..], batteryUnderLoad)
      ensures batteryUnderLoad != 0 ==> !WeakId(battery[..], batteryUnderLoad)
      ensures forall i | 0 <= i < NUM_BATS && battery[i].healthState != Missing ::
        && (battery[i].opState == Charging <==> batteryUnderCharge == i + 1)
        && (battery[i].opState == Loaded <==> batteryUnderLoad == i + 1 && batteryUnderCharge != i + 1)
      ensures plan == SwitchDecision(battery[..], batteryUnderLoad, batteryUnderCharge, temperature, temperatureLimit)
    {
      phases := AllocateTargets(sort, numBats, longest, Readings(chargingPhases, voltages, panelVoltage),
                                cfg.floatBulkSoC, cfg.monitorStrategy);
      plan := FinishCycle(voltages, currents, temperature, cfg, temperatureLimit);
    }

    /** The decisions, with the targets they leave present and the load never on a weak battery. */
    method AllocateTargets(sort: seq<int>, numBats: int, longest: int, rd: Readings, floatBulkSoC: int, strategy: int)
      returns (phases: seq<ChargingPhase>)
      requires Valid() && ReadingsFit(rd, battery[..]) && RankedFor(sort, numBats, battery[..])
      requires TargetOk(battery[..], batteryUnderCharge) && TargetOk(battery[..], batteryUnderLoad)
      modifies this
      ensures Valid() && Unmoved() && |phases| == NUM_BATS
      ensures TargetOk(battery[..], batteryUnderCharge) && TargetOk(battery[..], batteryUnderLoad)
      ensures 0 <= numBats <= |sort| && ValidIds(sort, NUM_BATS)
      ensures Current(phases) == Decide(battery[..], rd, floatBulkSoC, strategy, sort, numBats, longest,
                                        old(batteryUnderCharge), old(batteryUnderLoad))
      ensures batteryUnderLoad != 0 ==> !WeakId(battery[..], batteryUnderLoad)
    {
      ghost var charge0, load0 := batteryUnderCharge, batteryUnderLoad;
      phases := Allocate(sort, numBats, longest, rd, floatBulkSoC, strategy);
      LoadNeverWeak(battery[..], rd, floatBulkSoC, strategy, sort, numBats, longest, charge0, load0);
    }

    /**
     * The steps before the decisions: missing batteries dropped, batteries
     * counted, Coulomb counting, ranking and the longest-isolated battery.
     */
    method PrepareCycle(accumulated: seq<int>, voltages: seq<int>, chargingPhases: seq<ChargingPhase>,
                        cfg: Config, weakVoltage: int)
      returns (sort: seq<int>, numBats: int, longest: int)
      requires Valid() && ConfigOk(cfg)
      requires |accumulated| == NUM_BATS && |voltages| == NUM_BATS && |chargingPhases| == NUM_BATS
      requires forall i | 0 <= i < NUM_BATS :: IsI16(accumulated[i])
      modifies this, battery
      ensures Valid() && Unmoved()
      ensures battery[..] == CountAll(DropAll(old(battery[..]), cfg.batteryCapacity), accumulated, voltages,
                                      chargingPhases, cfg, weakVoltage)
      ensures MissingFlags(battery[..]) == MissingFlags(old(battery[..]))
      ensures sort == Rank(Socs(battery[..]), MissingFlags(battery[..]))
      ensures RankedFor(sort, numBats, battery[..]) && longest == LongestScan(battery[..], numBats).0
      ensures batteryUnderCharge == Released(old(battery[..]), old(batteryUnderCharge))
      ensures batteryUnderLoad == Released(old(battery[..]), old(batteryUnderLoad))
      ensures chargerOff == old(chargerOff) && decisionStatus == old(decisionStatus)
      ensures TargetOk(battery[..], batteryUnderCharge) && TargetOk(battery[..], batteryUnderLoad)
    {
      numBats := CountAndCoulomb(accumulated, voltages, chargingPhases, cfg, weakVoltage);
      sort := RankBatteries();
      longest := LongestIsolated(numBats);
    }

    /** Missing batteries dropped, batteries counted, and Coulomb counting. */
    method CountAndCoulomb(accumulated: seq<int>, voltages: seq<int>, chargingPhases: seq<ChargingPhase>,
                           cfg: Config, weakVoltage: int)
      returns (numBats: int)
      requires Valid() && ConfigOk(cfg)
      requires |accumulated| == NUM_BATS && |voltages| == NUM_BATS && |chargingPhases| == NUM_BATS
      requires forall i | 0 <= i < NUM_BATS :: IsI16(accumulated[i])
      modifies this, battery
      ensures Valid() && Unmoved()
      ensures battery[..] == CountAll(DropAll(old(battery[..]), cfg.batteryCapacity), accumulated, voltages,
                                      chargingPhases, cfg, weakVoltage)
      ensures MissingFlags(battery[..]) == MissingFlags(old(battery[..]))
      ensures numBats == NumPresent(MissingFlags(battery[..]))
      ensures batteryUnderCharge == Released(old(battery[..]), old(batteryUnderCharge))
      ensures batteryUnderLoad == Released(old(battery[..]), old(batteryUnderLoad))
      ensures chargerOff == old(chargerOff) && decisionStatus == old(decisionStatus)
      ensures TargetOk(battery[..], batteryUnderCharge) && TargetOk(battery[..], batteryUnderLoad)
    {
      DropMissing(cfg);
      numBats := CountBatteries();
      CoulombCount(accumulated, voltages, chargingPhases, cfg, weakVoltage);
    }

    /**
     * The steps after the decisions: the state update, the switch plan and
     * the resync. Health and fill are untouched; a present battery is
     * Charging or Loaded exactly as the targets say.
     */
    method FinishCycle(voltages: seq<int>, currents: seq<int>, temperature: int, cfg: Config, temperatureLimit: int)
      returns (plan: SwitchPlan)
      requires Valid() && ConfigOk(cfg) && cfg.monitorDelay > 0
      requires |voltages| == NUM_BATS && |currents| == NUM_BATS
      modifies battery
      ensures Valid()
      ensures forall i | 0 <= i < NUM_BATS ::
        battery[i].healthState == old(battery[i]).healthState && battery[i].fillState == old(battery[i]).fillState
      ensures forall i | 0 <= i < NUM_BATS && battery[i].healthState != Missing ::
        && (battery[i].opState == Charging <==> batteryUnderCharge == i + 1)
        && (battery[i].opState == Loaded <==> batteryUnderLoad == i + 1 && batteryUnderCharge != i + 1)
      ensures var ocv := OcvSocs(voltages, temperature, cfg);
        battery[..] == ResyncEvery(UpdateAll(old(battery[..]), batteryUnderCharge, batteryUnderLoad, ocv,
                                             cfg.batteryCapacity, IsolationLimit(cfg.monitorDelay)),
                                   currents, ocv, cfg)
      ensures plan == SwitchDecision(battery[..], batteryUnderLoad, batteryUnderCharge, temperature, temperatureLimit)
      ensures MissingFlags(battery[..]) == MissingFlags(old(battery[..]))
      ensures TargetOk(old(battery[..]), batteryUnderCharge) ==> TargetOk(battery[..], batteryUnderCharge)
      ensures TargetOk(old(battery[..]), batteryUnderLoad) ==> TargetOk(battery[..], batteryUnderLoad)
      ensures WeakId(battery[..], batteryUnderLoad) == WeakId(old(battery[..]), batteryUnderLoad)
    {
      ghost var start := battery[..];
      var ocv := OcvSocs(voltages, temperature, cfg);
      UpdateStates(ocv, cfg);
      plan := SwitchDecision(battery[..], batteryUnderLoad, batteryUnderCharge, temperature, temperatureLimit);
      ghost var updated := battery[..];
      ResyncAll(currents, ocv, cfg);
      assert batteryUnderLoad != 0 ==> battery[batteryUnderLoad - 1].fillState == updated[batteryUnderLoad - 1].fillState;
      SameHealth(start, battery[..]);
    }
  }
}
