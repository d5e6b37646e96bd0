/**
 * The end of a monitor cycle: the operational state and isolation timer of
 * each battery after the decisions (lines 809-847), the switch settings
 * applied under automatic tracking (lines 848-875), and the resynchronisation
 * of the SoC from the open-circuit voltage after a steady or isolated period
 * (lines 885-912).
 */
module Tracker {
  import opened Types
  import opened BatteryState

  /** The isolation timer value a battery restarts from when it is not isolated. */
  const TIMER_RESTART: int := 10
  /** A battery is steady while the magnitude of its current is below this (about 80 mA). */
  const STEADY_CURRENT: int := 30

  /** Cycles in four hours: (4*3600*1024)/monitorDelay, in uint32_t arithmetic. */
  function IsolationLimit(monitorDelay: int): int
    requires monitorDelay > 0
  {
    (4 * 3600 * 1024) / monitorDelay
  }

  /** Cycles in one hour: (3600*1000)/monitorDelay, in uint32_t arithmetic. */
  function MonitorHour(monitorDelay: int): int
    requires monitorDelay > 0
  {
    (3600 * 1000) / monitorDelay
  }

  // ---------------------------------------------------------------------
  // Operational state

  /** The state a present battery at position p takes from the targets. */
  function OpStateFor(p: nat, charge: int, load: int): OpState
  {
    if charge > 0 && p == charge - 1 then Charging
    else if load > 0 && load == p + 1 then Loaded
    else Isolated
  }

  /**
   * One battery after the state update: its new operational state; the SoC
   * taken from the open-circuit voltage when it leaves isolation after more
   * than four hours (the timer then cleared); and the timer restarted at 10
   * when it is not isolated or both targets are equal.
   */
  function UpdateState(b: Battery, p: nat, charge: int, load: int, ocvSoC: int, capacity: int, limit: int): Battery
    requires 0 <= ocvSoC <= FULL_SOC && CapacityOk(capacity)
  {
    if b.healthState == Missing then b
    else
      var op := OpStateFor(p, charge, load);
      var b1 := b.(opState := op);
      var b2 := if b.opState == Isolated && op != Isolated && b.isolationTime > limit
                then SetSoC(b1, ocvSoC, capacity).(isolationTime := 0)
                else b1;
      if op != Isolated || load == charge then b2.(isolationTime := TIMER_RESTART) else b2
  }

  /** Every battery after the state update. */
  function UpdateAll(bats: seq<Battery>, charge: int, load: int, ocvSocs: seq<int>, capacities: seq<int>, limit: int): (r: seq<Battery>)
    requires |ocvSocs| == |bats| && |capacities| == |bats|
    requires forall i | 0 <= i < |bats| :: 0 <= ocvSocs[i] <= FULL_SOC && CapacityOk(capacities[i])
    ensures |r| == |bats|
  {
    seq(|bats|, i requires 0 <= i < |bats| => UpdateState(bats[i], i, charge, load, ocvSocs[i], capacities[i], limit))
  }

  /**
   * After the state update a present battery is Charging exactly when it is
   * the charge target, Loaded exactly when it is the load target and not the
   * charge target, and Isolated otherwise; its timer is 10 whenever it is
   * not Isolated or the two targets are equal, it is cleared with an OCV
   * SoC when it leaves a long isolation, and otherwise it is kept. A Missing
   * battery is untouched, and the record invariant is kept.
   */
  lemma UpdateStateEffect(b: Battery, p: nat, charge: int, load: int, ocvSoC: int, capacity: int, limit: int)
    requires RecordOk(b) && 0 <= ocvSoC <= FULL_SOC && CapacityOk(capacity)
    ensures var r := UpdateState(b, p, charge, load, ocvSoC, capacity, limit);
      && RecordOk(r)
      && (b.healthState == Missing ==> r == b)
      && (b.healthState != Missing ==>
            && (r.opState == Charging <==> charge == p + 1)
            && (r.opState == Loaded <==> load == p + 1 && charge != p + 1)
            && (r.opState == Isolated <==> charge != p + 1 && load != p + 1)
            && (r.opState != Isolated || load == charge ==> r.isolationTime == TIMER_RESTART)
            && (r.opState == Isolated && load != charge ==> r.isolationTime == b.isolationTime)
            && (r.soc != b.soc || r.charge != b.charge ==>
                  b.opState == Isolated && r.opState != Isolated && b.isolationTime > limit && r.soc == ocvSoC)
            && r.healthState == b.healthState && r.fillState == b.fillState
            && r.currentSteady == b.currentSteady)
  {
    SetSoCConsistent(b.(opState := OpStateFor(p, charge, load)), ocvSoC, capacity);
  }

  /**
   * Among present batteries at most one is Charging and at most one is
   * Loaded, and never the same one. (A Missing battery keeps whatever state
   * it had.)
   */
  lemma {:induction false} TargetsExclusive(bats: seq<Battery>, charge: int, load: int, ocvSocs: seq<int>,
                                            capacities: seq<int>, limit: int, p: int, q: int)
    requires |ocvSocs| == |bats| && |capacities| == |bats|
    requires forall i | 0 <= i < |bats| :: 0 <= ocvSocs[i] <= FULL_SOC && CapacityOk(capacities[i])
    requires forall i | 0 <= i < |bats| :: RecordOk(bats[i])
    requires 0 <= p < |bats| && 0 <= q < |bats|
    requires bats[p].healthState != Missing && bats[q].healthState != Missing
    ensures var r := UpdateAll(bats, charge, load, ocvSocs, capacities, limit);
      && (r[p].opState == Charging && r[q].opState == Charging ==> p == q)
      && (r[p].opState == Loaded && r[q].opState == Loaded ==> p == q)
      && (r[p].opState == Charging ==> p + 1 == charge)
      && (r[p].opState == Loaded ==> p + 1 == load && load != charge)
  {
    UpdateStateEffect(bats[p], p, charge, load, ocvSocs[p], capacities[p], limit);
    UpdateStateEffect(bats[q], q, charge, load, ocvSocs[q], capacities[q], limit);
  }

  /**
   * With no charge target and no load target the two targets compare
   * equal, so every present battery's timer is restarted and none
   * accumulates isolation time.
   */
  lemma NoTargetsRestartTimers(b: Battery, p: nat, ocvSoC: int, capacity: int, limit: int)
    requires RecordOk(b) && 0 <= ocvSoC <= FULL_SOC && CapacityOk(capacity)
    requires b.healthState != Missing
    ensures var r := UpdateState(b, p, 0, 0, ocvSoC, capacity, limit);
      r.opState == Isolated && r.isolationTime == TIMER_RESTART
  {
    UpdateStateEffect(b, p, 0, 0, ocvSoC, capacity, limit);
  }

  // ---------------------------------------------------------------------
  // Switches under automatic tracking

  /**
   * The switch settings applied under automatic tracking: load 2 on the
   * load target, load 1 on it too unless that battery is critical (then
   * off), the panel on the charge target only below the temperature limit,
   * and the charge target recorded as the preferred battery.
   */
  datatype SwitchPlan = SwitchPlan(load2: int, load1: int, panelSet: bool, panel: int, preferred: int)

  /** Lines 848-875 with the fill test made only when there is a load target. */
  function SwitchDecision(bats: seq<Battery>, load: int, charge: int, temperature: int, temperatureLimit: int): (s: SwitchPlan)
    requires 0 <= load <= |bats|
  {
    var load1 := if load != 0 && bats[load - 1].fillState == Critical then 0 else load;
    var panelSet := temperature < temperatureLimit * 256;
    SwitchPlan(load, load1, panelSet, if panelSet then charge else 0, charge)
  }

  /** Line 856 as written: battery[load-1] is read also when there is no load target. */
  function SwitchDecisionAsWritten(bats: seq<Battery>, load: int, charge: int, temperature: int,
                                   temperatureLimit: int, stray: FillState): SwitchPlan
    requires 0 <= load <= |bats|
  {
    var fill := if load == 0 then stray else bats[load - 1].fillState;
    var load1 := if fill == Critical then 0 else load;
    var panelSet := temperature < temperatureLimit * 256;
    SwitchPlan(load, load1, panelSet, if panelSet then charge else 0, charge)
  }

  /**
   * The stray read of line 856 is harmless: with no load target both of its
   * branches switch load 1 to "none", so the settings do not depend on the
   * value read.
   */
  lemma StraySwitchReadHarmless(bats: seq<Battery>, load: int, charge: int, temperature: int,
                                temperatureLimit: int, stray: FillState)
    requires 0 <= load <= |bats|
    ensures SwitchDecisionAsWritten(bats, load, charge, temperature, temperatureLimit, stray)
            == SwitchDecision(bats, load, charge, temperature, temperatureLimit)
  {
  }

  /**
   * Load 1 is only ever connected to the load target, and never to a
   * critical battery; load 2 always follows the load target; the panel
   * switch is set only below the temperature limit.
   */
  lemma SwitchDecisionSafe(bats: seq<Battery>, load: int, charge: int, temperature: int, temperatureLimit: int)
    requires 0 <= load <= |bats|
    ensures var s := SwitchDecision(bats, load, charge, temperature, temperatureLimit);
      && s.load2 == load
      && (s.load1 == 0 || (s.load1 == load && bats[load - 1].fillState != Critical))
      && (load != 0 && bats[load - 1].fillState != Critical ==> s.load1 == load)
      && (s.panelSet <==> temperature < temperatureLimit * 256)
      && s.preferred == charge
  {
  }

  // ---------------------------------------------------------------------
  // Resynchronisation after idle time

  /**
   * Lines 891-910 for one battery: count steady cycles (uint16_t), take the
   * OCV SoC after more than an hour of steady current, count the isolation
   * timer (uint32_t), and take the OCV SoC after more than eight hours.
   */
  function Resync(b: Battery, current: int, hour: int, ocvSoC: int, capacity: int): Battery
    requires 0 <= ocvSoC <= FULL_SOC && CapacityOk(capacity)
  {
    if b.healthState == Missing then b
    else
      var steady := if Abs(current) < STEADY_CURRENT then ToU16(b.currentSteady + 1) else 0;
      var b1 := if steady > hour then SetSoC(b, ocvSoC, capacity).(currentSteady := 0)
                else b.(currentSteady := steady);
      var timer := ToU32(b1.isolationTime + 1);
      if timer > ToU32(8 * hour) then SetSoC(b1, ocvSoC, capacity).(isolationTime := 0)
      else b1.(isolationTime := timer)
  }

  /**
   * After the resync step of a present battery its steady counter is at
   * most an hour and its isolation timer at most eight hours of cycles; the
   * SoC changes only to the OCV SoC; health, fill and operational state are
   * kept; the record invariant is kept. A Missing battery is untouched.
   */
  lemma ResyncBounds(b: Battery, current: int, hour: int, ocvSoC: int, capacity: int)
    requires RecordOk(b) && 0 <= ocvSoC <= FULL_SOC && CapacityOk(capacity)
    requires 0 <= hour < 0x2000_0000
    ensures var r := Resync(b, current, hour, ocvSoC, capacity);
      && RecordOk(r)
      && (b.healthState == Missing ==> r == b)
      && (b.healthState != Missing ==>
            && r.currentSteady <= hour
            && r.isolationTime <= 8 * hour
            && (Abs(current) >= STEADY_CURRENT ==> r.currentSteady == 0)
            && (r.soc != b.soc || r.charge != b.charge ==> r.soc == ocvSoC)
            && r.healthState == b.healthState && r.fillState == b.fillState && r.opState == b.opState)
  {
    if b.healthState != Missing {
      var steady := if Abs(current) < STEADY_CURRENT then ToU16(b.currentSteady + 1) else 0;
      SetSoCConsistent(b, ocvSoC, capacity);
      var b1 := if steady > hour then SetSoC(b, ocvSoC, capacity).(currentSteady := 0)
                else b.(currentSteady := steady);
      assert RecordOk(b1);
      SetSoCConsistent(b1, ocvSoC, capacity);
      assert ToU32(8 * hour) == 8 * hour;
    }
  }

  /**
   * With a monitor period short enough that an hour is 65535 cycles or
   * more, the uint16_t steady counter can never exceed an hour: it wraps to
   * 0 instead, and the steady-current resync never takes place.
   */
  lemma SteadyCounterWraps(b: Battery, current: int, hour: int, ocvSoC: int, capacity: int)
    requires RecordOk(b) && 0 <= ocvSoC <= FULL_SOC && CapacityOk(capacity)
    requires b.healthState != Missing && hour >= TWO_16 - 1
    requires Abs(current) < STEADY_CURRENT && b.currentSteady == TWO_16 - 1
    ensures Resync(b, current, hour, ocvSoC, capacity).currentSteady == 0
    ensures Resync(b, current, hour, ocvSoC, capacity).soc == b.soc || ToU32(b.isolationTime + 1) > ToU32(8 * hour)
  {
  }
}
