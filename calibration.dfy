/**
 * The calibration sequence of the monitor (lines 128-243 of the monitor
 * task): the switch schedule of the seven tests, missing-battery detection
 * from the interface indicator bits, the current offset of each interface,
 * the quiescent current, and the reset of the battery records at the end.
 *
 * Samples are the int16_t currents read in each test; the functions below
 * are the specifications the calibrating method of the monitor engine is
 * proved against.
 */
module Calibration {
  import opened Types
  import opened BatteryState

  /** Samples at or below this are not used for offsets or the quiescent current. */
  const CALIBRATION_THRESHOLD: int := -50
  /** Initial running minimum of an offset; still there at the end means "no usable sample". */
  const OFFSET_START_VALUE: int := 100
  /** Initial running maximum of the quiescent current. */
  const QUIESCENT_START: int := -100

  /** Switch lines: load 1, load 2 and the panel. */
  const LINES: nat := NUM_LOADS + NUM_PANELS

  // ---------------------------------------------------------------------
  // Switch schedule

  /**
   * The battery (1-based, 0 = none) connected to each line during a test:
   * every line is first opened, then tests 0..2 put load 2 on batteries
   * 1..3, tests 3..5 put load 1 on batteries 1..3, and the last test leaves
   * everything open so that the panel can be measured.
   */
  function TestSwitches(test: int): (s: seq<int>)
    requires 0 <= test < NUM_TESTS
    ensures |s| == LINES
  {
    var open := seq(LINES, _ => 0);
    if test < NUM_BATS then open[1 := test + 1]
    else if test < NUM_TESTS - 1 then open[0 := test - NUM_BATS + 1]
    else open
  }

  /**
   * Each battery is put on each load in exactly one test, and the panel
   * line is never connected.
   */
  lemma ScheduleCovers(test: int, line: int, b: int)
    requires 0 <= test < NUM_TESTS && 0 <= line < LINES && 1 <= b <= NUM_BATS
    ensures TestSwitches(test)[line] == b <==>
            (line == 1 && test == b - 1) || (line == 0 && test == b - 1 + NUM_BATS)
    ensures TestSwitches(test)[LINES - 1] == 0
    ensures test == NUM_TESTS - 1 ==> TestSwitches(test)[line] == 0
  {
  }

  // ---------------------------------------------------------------------
  // Missing batteries

  function Pow4(n: nat): (p: nat)
    ensures p >= 1
  {
    if n == 0 then 1 else 4 * Pow4(n - 1)
  }

  /** Bit 1 of battery i's two-bit indicator field is clear: the interface shows no battery. */
  predicate IndicatorOff(indicators: int, i: nat)
  {
    (indicators / Pow4(i)) % 4 < 2
  }

  /** One battery after one indicator reading: marked Missing with SoC 0 when its indicator is off. */
  function MarkBattery(b: Battery, off: bool, capacity: int): Battery
    requires CapacityOk(capacity)
  {
    if off then SetSoC(b.(healthState := Missing), 0, capacity) else b
  }

  /** All batteries after the indicator check of one test. */
  function MarkTest(bats: seq<Battery>, indicators: int, capacities: seq<int>): (r: seq<Battery>)
    requires |capacities| == |bats| && forall i | 0 <= i < |bats| :: CapacityOk(capacities[i])
    ensures |r| == |bats|
  {
    seq(|bats|, i requires 0 <= i < |bats| => MarkBattery(bats[i], IndicatorOff(indicators, i), capacities[i]))
  }

  /** All batteries after the indicator checks of the given tests, in order. */
  function MarkAll(bats: seq<Battery>, readings: seq<int>, capacities: seq<int>): (r: seq<Battery>)
    requires |capacities| == |bats| && forall i | 0 <= i < |bats| :: CapacityOk(capacities[i])
    ensures |r| == |bats|
  {
    if |readings| == 0 then bats
    else MarkTest(MarkAll(bats, readings[..|readings| - 1], capacities), readings[|readings| - 1], capacities)
  }

  /** Some test of the sequence showed battery i's indicator off. */
  predicate EverOff(readings: seq<int>, i: nat)
  {
    exists t | 0 <= t < |readings| :: IndicatorOff(readings[t], i)
  }

  /**
   * Calibration only ever sets Missing: a battery ends Missing exactly when
   * it was Missing before or some test showed its indicator off, in which
   * case its SoC and charge are 0; a battery never shown off is untouched.
   * The record invariant is kept.
   */
  lemma {:induction false} MarkAllEffect(bats: seq<Battery>, readings: seq<int>, capacities: seq<int>, i: nat)
    requires |capacities| == |bats| && forall j | 0 <= j < |bats| :: CapacityOk(capacities[j])
    requires forall j | 0 <= j < |bats| :: RecordOk(bats[j])
    requires i < |bats|
    ensures var r := MarkAll(bats, readings, capacities)[i];
      && RecordOk(r)
      && (r.healthState == Missing <==> bats[i].healthState == Missing || EverOff(readings, i))
      && (!EverOff(readings, i) ==> r == bats[i])
      && (EverOff(readings, i) ==> r.soc == 0 && r.charge == 0)
      && r.fillState == bats[i].fillState && r.opState == bats[i].opState
      && r.currentSteady == bats[i].currentSteady && r.isolationTime == bats[i].isolationTime
  {
    if |readings| > 0 {
      var front := readings[..|readings| - 1];
      var last := readings[|readings| - 1];
      MarkAllEffect(bats, front, capacities, i);
      var m := MarkAll(bats, front, capacities)[i];
      SetSoCConsistent(m.(healthState := Missing), 0, capacities[i]);
      if EverOff(front, i) {
        var t :| 0 <= t < |front| && IndicatorOff(front[t], i);
        assert readings[t] == front[t];
      }
      if EverOff(readings, i) && !IndicatorOff(last, i) {
        var t :| 0 <= t < |readings| && IndicatorOff(readings[t], i);
        assert t < |front| && front[t] == readings[t];
      }
      if !EverOff(readings, i) {
        assert !IndicatorOff(readings[|readings| - 1], i);
        forall t | 0 <= t < |front|
          ensures !IndicatorOff(front[t], i)
        {
          assert front[t] == readings[t];
        }
      }
    }
  }

  // ---------------------------------------------------------------------
  // Current offsets

  /** A sample that can be an offset: strictly between the threshold and the start value. */
  predicate OffsetCandidate(c: int)
  {
    CALIBRATION_THRESHOLD < c < OFFSET_START_VALUE
  }

  /** The running minimum over one interface's samples, in test order. */
  function MinScan(samples: seq<int>): int
  {
    if |samples| == 0 then OFFSET_START_VALUE
    else
      var m := MinScan(samples[..|samples| - 1]);
      var c := samples[|samples| - 1];
      if c > CALIBRATION_THRESHOLD && c < m then c else m
  }

  /** The offset of one interface: the running minimum, or 0 when it never moved. */
  function Offset(samples: seq<int>): int
  {
    var m := MinScan(samples);
    if m == OFFSET_START_VALUE then 0 else m
  }

  lemma {:induction false} MinScanIsMinimum(samples: seq<int>)
    ensures var m := MinScan(samples);
      && m <= OFFSET_START_VALUE
      && (m == OFFSET_START_VALUE || (OffsetCandidate(m) && m in samples))
      && (forall k | 0 <= k < |samples| && OffsetCandidate(samples[k]) :: m <= samples[k])
      && (m == OFFSET_START_VALUE <==> forall k | 0 <= k < |samples| :: !OffsetCandidate(samples[k]))
  {
    if |samples| > 0 {
      var front := samples[..|samples| - 1];
      MinScanIsMinimum(front);
      assert forall k | 0 <= k < |front| :: front[k] == samples[k];
      assert MinScan(front) in front ==> MinScan(front) in samples;
    }
  }

  /**
   * The offset of an interface is the smallest sample strictly between -50
   * and 100, or 0 when no sample is in that range.
   */
  lemma OffsetIsMinimum(samples: seq<int>)
    ensures (forall k | 0 <= k < |samples| :: !OffsetCandidate(samples[k])) ==> Offset(samples) == 0
    ensures (exists k | 0 <= k < |samples| :: OffsetCandidate(samples[k])) ==>
      && OffsetCandidate(Offset(samples))
      && Offset(samples) in samples
      && forall k | 0 <= k < |samples| && OffsetCandidate(samples[k]) :: Offset(samples) <= samples[k]
  {
    MinScanIsMinimum(samples);
  }

  /** The samples of one interface with its offset removed (int16_t subtraction). */
  function Corrected(samples: seq<int>, offset: int): (r: seq<int>)
    ensures |r| == |samples|
  {
    seq(|samples|, t requires 0 <= t < |samples| => ToI16(samples[t] - offset))
  }

  /**
   * After the offset is removed, the sample that gave the offset reads 0
   * and no other in-range sample reads below 0; int16_t samples are not
   * wrapped by the subtraction.
   */
  lemma CorrectedFromZero(samples: seq<int>)
    requires forall k | 0 <= k < |samples| :: IsI16(samples[k])
    requires exists k | 0 <= k < |samples| :: OffsetCandidate(samples[k])
    ensures var r := Corrected(samples, Offset(samples));
      && (exists k | 0 <= k < |samples| :: r[k] == 0)
      && (forall k | 0 <= k < |samples| && OffsetCandidate(samples[k]) :: r[k] >= 0)
  {
    OffsetIsMinimum(samples);
    var o := Offset(samples);
    var k :| 0 <= k < |samples| && samples[k] == o;
    assert Corrected(samples, o)[k] == 0;
  }

  // ---------------------------------------------------------------------
  // Quiescent current

  /** The running maximum of the samples above the threshold, from a start value. */
  function MaxScan(start: int, samples: seq<int>): int
  {
    if |samples| == 0 then start
    else
      var q := MaxScan(start, samples[..|samples| - 1]);
      var c := samples[|samples| - 1];
      if c > CALIBRATION_THRESHOLD && c > q then c else q
  }

  /** The corrected samples of the batteries that are not Missing, battery by battery. */
  function QuiescentSamples(columns: seq<seq<int>>, missing: seq<bool>): seq<int>
    requires |columns| == |missing|
  {
    if |columns| == 0 then []
    else
      var n := |columns| - 1;
      QuiescentSamples(columns[..n], missing[..n]) + (if missing[n] then [] else columns[n])
  }

  /** The quiescent current reported at the end of calibration. */
  function Quiescent(columns: seq<seq<int>>, missing: seq<bool>): int
    requires |columns| == |missing|
  {
    MaxScan(QUIESCENT_START, QuiescentSamples(columns, missing))
  }

  lemma {:induction false} QuiescentSamplesContent(columns: seq<seq<int>>, missing: seq<bool>, c: int)
    requires |columns| == |missing|
    ensures c in QuiescentSamples(columns, missing) <==>
            exists i | 0 <= i < |columns| :: !missing[i] && c in columns[i]
  {
    if |columns| > 0 {
      var n := |columns| - 1;
      QuiescentSamplesContent(columns[..n], missing[..n], c);
      if exists i | 0 <= i < |columns| :: !missing[i] && c in columns[i] {
        var i :| 0 <= i < |columns| && !missing[i] && c in columns[i];
        if i < n {
          assert columns[..n][i] == columns[i] && missing[..n][i] == missing[i];
        }
      }
    }
  }

  lemma {:induction false} MaxScanIsMaximum(start: int, samples: seq<int>)
    requires start <= CALIBRATION_THRESHOLD
    ensures var q := MaxScan(start, samples);
      && (q == start || (q > CALIBRATION_THRESHOLD && q in samples))
      && (forall k | 0 <= k < |samples| && samples[k] > CALIBRATION_THRESHOLD :: samples[k] <= q)
      && (q == start <==> forall k | 0 <= k < |samples| :: samples[k] <= CALIBRATION_THRESHOLD)
  {
    if |samples| > 0 {
      var front := samples[..|samples| - 1];
      MaxScanIsMaximum(start, front);
      assert forall k | 0 <= k < |front| :: front[k] == samples[k];
      assert MaxScan(start, front) in front ==> MaxScan(start, front) in samples;
    }
  }

  /**
   * The quiescent current is the largest corrected sample above -50 over
   * the batteries that are not Missing, or -100 when there is none.
   */
  lemma QuiescentIsMaximum(columns: seq<seq<int>>, missing: seq<bool>)
    requires |columns| == |missing|
    ensures var q := Quiescent(columns, missing);
      && ((forall i, t | 0 <= i < |columns| && !missing[i] && 0 <= t < |columns[i]| :: columns[i][t] <= CALIBRATION_THRESHOLD)
          ==> q == QUIESCENT_START)
      && (forall i, t | 0 <= i < |columns| && !missing[i] && 0 <= t < |columns[i]| && columns[i][t] > CALIBRATION_THRESHOLD
          :: columns[i][t] <= q)
      && (q == QUIESCENT_START || (q > CALIBRATION_THRESHOLD &&
            exists i | 0 <= i < |columns| :: !missing[i] && q in columns[i]))
  {
    var s := QuiescentSamples(columns, missing);
    var q := Quiescent(columns, missing);
    MaxScanIsMaximum(QUIESCENT_START, s);
    forall i, t | 0 <= i < |columns| && !missing[i] && 0 <= t < |columns[i]| && columns[i][t] > CALIBRATION_THRESHOLD
      ensures columns[i][t] <= q
    {
      QuiescentSamplesContent(columns, missing, columns[i][t]);
    }
    if q != QUIESCENT_START {
      QuiescentSamplesContent(columns, missing, q);
    }
    if forall i, t | 0 <= i < |columns| && !missing[i] && 0 <= t < |columns[i]| :: columns[i][t] <= CALIBRATION_THRESHOLD {
      forall k | 0 <= k < |s|
        ensures s[k] <= CALIBRATION_THRESHOLD
      {
        QuiescentSamplesContent(columns, missing, s[k]);
      }
    }
  }

  /** Running the scan over a concatenation continues from the first part's result. */
  lemma {:induction false} MaxScanConcat(start: int, a: seq<int>, b: seq<int>)
    ensures MaxScan(start, a + b) == MaxScan(MaxScan(start, a), b)
  {
    if |b| > 0 {
      var b' := b[..|b| - 1];
      assert (a + b)[..|a + b| - 1] == a + b';
      MaxScanConcat(start, a, b');
    } else {
      assert a + b == a;
    }
  }

  // ---------------------------------------------------------------------
  // Finalisation

  /**
   * A battery at the end of calibration: a present battery takes the SoC
   * from its open-circuit voltage, is isolated and has both counters
   * cleared; a Missing battery is left as it is.
   */
  function Finalise(b: Battery, ocvSoC: int, capacity: int): (r: Battery)
    requires 0 <= ocvSoC <= FULL_SOC && CapacityOk(capacity)
  {
    if b.healthState == Missing then b
    else SetSoC(b, ocvSoC, capacity).(currentSteady := 0, isolationTime := 0, opState := Isolated)
  }

  lemma FinaliseEffect(b: Battery, ocvSoC: int, capacity: int)
    requires RecordOk(b) && 0 <= ocvSoC <= FULL_SOC && CapacityOk(capacity)
    ensures var r := Finalise(b, ocvSoC, capacity);
      && RecordOk(r)
      && r.healthState == b.healthState && r.fillState == b.fillState
      && (b.healthState == Missing ==> r == b)
      && (b.healthState != Missing ==>
            && r.soc == ocvSoC && SocOfCharge(r.charge, capacity) == ocvSoC
            && r.opState == Isolated && r.currentSteady == 0 && r.isolationTime == 0)
  {
    SetSoCConsistent(b, ocvSoC, capacity);
  }
}
