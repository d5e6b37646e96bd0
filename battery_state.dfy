/**
 * Operations on one battery record: the SoC setters, the missing flag, and
 * one cycle of Coulomb counting with the fill and health classification.
 */
module BatteryState {
  import opened Types
  import opened Arith

  /** The record invariant the monitor keeps for every battery. */
  predicate RecordOk(b: Battery)
  {
    && 0 <= b.soc <= FULL_SOC
    && 0 <= b.charge <= MAX_CAPACITY * CHARGE_PER_AH
    && IsU16(b.currentSteady)
    && IsU32(b.isolationTime)
  }

  predicate CapacityOk(capacity: int)
  {
    1 <= capacity <= MAX_CAPACITY
  }

  /** Charge at 100% for a battery of this capacity: capacity*3600*256. */
  function ChargeMax(capacity: int): int
  {
    capacity * CHARGE_PER_AH
  }

  /** SoC (percentage x 256) that a charge represents: charge/(capacity*36). */
  function SocOfCharge(charge: int, capacity: int): int
    requires CapacityOk(capacity)
  {
    charge / (capacity * 36)
  }

  /** A charge within [0, capacity*3600*256] gives a SoC within [0, 100%]. */
  lemma {:induction false} SocOfChargeBounded(charge: int, capacity: int)
    requires CapacityOk(capacity) && 0 <= charge <= ChargeMax(capacity)
    ensures 0 <= SocOfCharge(charge, capacity) <= FULL_SOC
  {
    assert ChargeMax(capacity) == FULL_SOC * (capacity * 36);
    DivBound(charge, capacity * 36, FULL_SOC);
  }

  /**
   * setBatterySoC: the charge is always recomputed from the requested SoC;
   * the SoC field takes the requested value unless the previous SoC was
   * above 100%, in which case it is pinned at 100%.
   */
  function SetSoC(b: Battery, soc: int, capacity: int): (r: Battery)
    requires 0 <= soc <= FULL_SOC && CapacityOk(capacity)
    ensures r.charge == soc * capacity * 36
    ensures r.soc == (if b.soc > FULL_SOC then FULL_SOC else soc)
    ensures r == b.(soc := r.soc, charge := r.charge)
  {
    var s := if b.soc > FULL_SOC then FULL_SOC else soc;
    b.(soc := s, charge := soc * capacity * 36)
  }

  /**
   * Under the record invariant, setBatterySoC leaves SoC and charge
   * consistent: the SoC is exactly the one the charge represents, and the
   * record invariant is kept.
   */
  lemma {:induction false} SetSoCConsistent(b: Battery, soc: int, capacity: int)
    requires RecordOk(b) && 0 <= soc <= FULL_SOC && CapacityOk(capacity)
    ensures SetSoC(b, soc, capacity).soc == soc
    ensures SocOfCharge(SetSoC(b, soc, capacity).charge, capacity) == soc
    ensures RecordOk(SetSoC(b, soc, capacity))
  {
    var d := capacity * 36;
    assert SetSoC(b, soc, capacity).charge == soc * d;
    MulDivCancel(soc, d);
    MulMonotone(soc, FULL_SOC, d);
    MulMonotone(0, soc, d);
    MulMonotone(capacity, MAX_CAPACITY, CHARGE_PER_AH);
    assert FULL_SOC * d == capacity * CHARGE_PER_AH;
  }

  /**
   * resetBatterySoC: forces 100%, and marks the battery Faulty exactly when
   * the SoC it had was below 100%.
   */
  function ResetSoC(b: Battery, capacity: int): (r: Battery)
    requires CapacityOk(capacity)
    ensures r.soc == FULL_SOC && r.charge == ChargeMax(capacity)
    ensures b.soc >= FULL_SOC ==> r.fillState == b.fillState
    ensures b.soc < FULL_SOC ==> r.fillState == Faulty
    ensures r.healthState == b.healthState && r.opState == b.opState
    ensures r.currentSteady == b.currentSteady && r.isolationTime == b.isolationTime
  {
    var f := if b.soc < FULL_SOC then b.(fillState := Faulty) else b;
    SetSoC(f, FULL_SOC, capacity)
  }

  /** setBatteryMissing: Missing when asked, otherwise back to Good. */
  function SetMissing(b: Battery, missing: bool): (r: Battery)
    ensures (r.healthState == Missing) == missing
    ensures !missing ==> r.healthState == Good
    ensures r == b.(healthState := r.healthState)
  {
    b.(healthState := if missing then Missing else Good)
  }

  /** Configured fill thresholds (volts x 256 and percentage x 256). */
  datatype Thresholds = Thresholds(lowVoltage: int, criticalVoltage: int, lowSoC: int, criticalSoC: int)

  /** How bad a fill state is, Normal best. */
  function Severity(f: FillState): nat
  {
    match f
    case Normal => 0
    case Low => 1
    case Critical => 2
    case Faulty => 3
  }

  /**
   * The fill classification of lines 368-374 as written: the low thresholds
   * are checked first, so a battery below a critical threshold that is also
   * below a low threshold is reported Low.
   */
  function ClassifyFillAsWritten(absVoltage: int, soc: int, th: Thresholds): FillState
  {
    if absVoltage < th.lowVoltage || soc < th.lowSoC then Low
    else if absVoltage < th.criticalVoltage || soc < th.criticalSoC then Critical
    else Normal
  }

  /**
   * As written, with critical thresholds at or below the low thresholds
   * (critical meaning critically low), Critical is never produced.
   */
  lemma {:induction false} CriticalUnreachableAsWritten(absVoltage: int, soc: int, th: Thresholds)
    requires th.criticalVoltage <= th.lowVoltage && th.criticalSoC <= th.lowSoC
    ensures ClassifyFillAsWritten(absVoltage, soc, th) != Critical
  {
    if absVoltage < th.criticalVoltage || soc < th.criticalSoC {
      assert absVoltage < th.lowVoltage || soc < th.lowSoC;
    }
  }

  /** A 10% battery at a healthy voltage with low 50% / critical 30% thresholds is reported Low. */
  lemma CriticalBatteryReportedLow()
    ensures ClassifyFillAsWritten(3200, 10 * 256, Thresholds(3100, 2900, 50 * 256, 30 * 256)) == Low
    ensures ClassifyFill(3200, 10 * 256, Thresholds(3100, 2900, 50 * 256, 30 * 256)) == Critical
  {
  }

  /**
   * The classification with the critical thresholds checked first: Critical
   * below a critical threshold, otherwise Low below a low threshold,
   * otherwise Normal.
   */
  function ClassifyFill(absVoltage: int, soc: int, th: Thresholds): (f: FillState)
    ensures f != Faulty
    ensures (f == Critical) <==> (absVoltage < th.criticalVoltage || soc < th.criticalSoC)
    ensures (f == Low) <==> (!(absVoltage < th.criticalVoltage || soc < th.criticalSoC)
                            && (absVoltage < th.lowVoltage || soc < th.lowSoC))
  {
    if absVoltage < th.criticalVoltage || soc < th.criticalSoC then Critical
    else if absVoltage < th.lowVoltage || soc < th.lowSoC then Low
    else Normal
  }

  /** Less charge or a lower voltage never gives a better fill state. */
  lemma {:induction false} ClassifyFillMonotone(v1: int, s1: int, v2: int, s2: int, th: Thresholds)
    requires v1 <= v2 && s1 <= s2
    ensures Severity(ClassifyFill(v1, s1, th)) >= Severity(ClassifyFill(v2, s2, th))
  {
    var f1, f2 := ClassifyFill(v1, s1, th), ClassifyFill(v2, s2, th);
    if f2 == Critical {
      assert f1 == Critical;
    } else if f2 == Low {
      assert f1 == Critical || f1 == Low;
    }
  }

  /** Clamp of the accumulated charge to [0, capacity*3600*256]. */
  function ClampCharge(charge: int, capacity: int): int
  {
    if charge < 0 then 0 else if charge > ChargeMax(capacity) then ChargeMax(capacity) else charge
  }

  /**
   * One cycle of Coulomb counting for a battery that is not Missing
   * (lines 358-392): add the accumulated charge, clamp, derive SoC, classify
   * the fill, mark a battery below the dropout voltage Weak (Critical, SoC 0,
   * charge untouched), and restore Good health in the rest phase.
   */
  function CoulombUpdate(b: Battery, accumulated: int, capacity: int, voltage: int,
                         phase: ChargingPhase, th: Thresholds, weakVoltage: int): (r: Battery)
    requires CapacityOk(capacity)
  {
    var charge := ClampCharge(b.charge + accumulated, capacity);
    var soc := SocOfCharge(charge, capacity);
    var absV := ToU16(Abs(voltage));
    var classified := b.(charge := charge, soc := soc, fillState := ClassifyFill(absV, soc, th));
    var checked := if absV < weakVoltage
                   then classified.(healthState := Weak, fillState := Critical, soc := 0)
                   else classified;
    if phase == Rest then checked.(healthState := Good) else checked
  }

  /**
   * Coulomb counting keeps 0 <= charge <= capacity*3600*256 and, unless the
   * dropout test zeroed it, SoC == charge/(capacity*36); hence SoC <= 100%.
   * Unless the dropout test fired, the fill state is the classification of
   * the new SoC and the voltage.
   * The health becomes Good in the rest phase, else Weak below the dropout
   * voltage, else stays; nothing else in the record changes.
   */
  lemma {:induction false} CoulombUpdateBounds(b: Battery, accumulated: int, capacity: int, voltage: int,
                                               phase: ChargingPhase, th: Thresholds, weakVoltage: int)
    requires RecordOk(b) && IsI16(accumulated) && CapacityOk(capacity)
    ensures var r := CoulombUpdate(b, accumulated, capacity, voltage, phase, th, weakVoltage);
      && 0 <= r.charge <= ChargeMax(capacity)
      && r.charge == ClampCharge(b.charge + accumulated, capacity)
      && IsI32(b.charge + accumulated)
      && (ToU16(Abs(voltage)) < weakVoltage ==> r.soc == 0 && r.fillState == Critical)
      && (ToU16(Abs(voltage)) >= weakVoltage ==> r.soc == SocOfCharge(r.charge, capacity))
      && (ToU16(Abs(voltage)) >= weakVoltage ==> r.fillState == ClassifyFill(ToU16(Abs(voltage)), r.soc, th))
      && 0 <= r.soc <= FULL_SOC
      && RecordOk(r)
      && r.healthState == (if phase == Rest then Good
                           else if ToU16(Abs(voltage)) < weakVoltage then Weak
                           else b.healthState)
      && r.opState == b.opState && r.currentSteady == b.currentSteady
      && r.isolationTime == b.isolationTime
  {
    var charge := ClampCharge(b.charge + accumulated, capacity);
    SocOfChargeBounded(charge, capacity);
    assert ChargeMax(capacity) <= MAX_CAPACITY * CHARGE_PER_AH;
  }
}
