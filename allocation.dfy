/**
 * The battery management decisions of one monitor cycle: the preliminary
 * decisions, the single-battery case, and the charger and load rule chains
 * for several batteries.
 *
 * Targets are 1-based battery numbers with 0 meaning "none". Each rule may
 * overwrite a target; the chain is written as a sequence of let-bindings in
 * source order. A scan over the ranked list that stops at the first battery
 * satisfying a test is Pick.
 */
module Allocation {
  import opened Types
  import opened Ranking

  /** A battery is considered below the panel when its voltage is under panel + 0.5 V. */
  const PANEL_MARGIN: int := 128

  /** Decision status bits (decisionStatus), a debugging record of which rules fired. */
  const CHARGER_ON: bv16 := 0x100
  const ALL_IN_FLOAT: bv16 := 0x200
  const ONE_BATTERY: bv16 := 0x1000
  const MANY_BATTERIES: bv16 := 0x2000

  /** The status word with the given bits set (decisionStatus |= bits). */
  function AddBits(s: bv16, bits: bv16): bv16
  {
    s | bits
  }

  function Socs(bats: seq<Battery>): (s: seq<int>)
    ensures |s| == |bats| && forall j | 0 <= j < |bats| :: s[j] == bats[j].soc
  {
    seq(|bats|, j requires 0 <= j < |bats| => bats[j].soc)
  }

  function MissingFlags(bats: seq<Battery>): (s: seq<bool>)
    ensures |s| == |bats| && forall j | 0 <= j < |bats| :: s[j] == (bats[j].healthState == Missing)
  {
    seq(|bats|, j requires 0 <= j < |bats| => bats[j].healthState == Missing)
  }

  predicate Present(bats: seq<Battery>, id: int)
  {
    1 <= id <= |bats| && bats[id - 1].healthState != Missing
  }

  predicate WeakId(bats: seq<Battery>, id: int)
  {
    1 <= id <= |bats| && bats[id - 1].healthState == Weak
  }

  /** Which batteries are present, missing or weak depends only on their health. */
  lemma SameHealth(before: seq<Battery>, after: seq<Battery>)
    requires |before| == |after|
    requires forall i | 0 <= i < |after| :: after[i].healthState == before[i].healthState
    ensures MissingFlags(after) == MissingFlags(before)
    ensures forall id :: Present(after, id) == Present(before, id) && WeakId(after, id) == WeakId(before, id)
  {
  }

  /** The ranked list and the number of batteries present, as the ranking step produces them. */
  predicate RankedFor(sort: seq<int>, numBats: int, bats: seq<Battery>)
  {
    && |bats| >= 1
    && numBats == NumPresent(MissingFlags(bats))
    && IsRanking(sort, Socs(bats), MissingFlags(bats))
  }

  /** A target is 0 or names a battery that is present. */
  predicate TargetOk(bats: seq<Battery>, t: int)
  {
    t == 0 || Present(bats, t)
  }

  /** The first numBats ranked batteries, lowest SoC first. */
  function LowFirst(sort: seq<int>, numBats: int): (r: seq<int>)
    requires 0 <= numBats <= |sort|
    ensures |r| == numBats && forall i | 0 <= i < numBats :: r[i] == sort[numBats - i - 1]
  {
    seq(numBats, i requires 0 <= i < numBats => sort[numBats - i - 1])
  }

  /** Position of the first entry of ids passing ok, or |ids| if none does. */
  function FirstIndex(ids: seq<int>, ok: int -> bool): (k: nat)
    ensures k <= |ids|
    ensures forall j | 0 <= j < k :: !ok(ids[j])
    ensures k < |ids| ==> ok(ids[k])
  {
    if ids == [] then 0 else if ok(ids[0]) then 0 else 1 + FirstIndex(ids[1..], ok)
  }

  /** The first entry of ids passing ok, or 0 (a scan loop that breaks on success). */
  function Pick(ids: seq<int>, ok: int -> bool): int
  {
    var k := FirstIndex(ids, ok);
    if k < |ids| then ids[k] else 0
  }

  // ---------------------------------------------------------------------
  // Preliminary decisions

  /**
   * Rule 1 of the preliminary decisions: every present battery in float
   * phase whose SoC is below floatBulkSoC goes back to bulk phase.
   */
  function FloatToBulk(bats: seq<Battery>, phases: seq<ChargingPhase>, floatBulkSoC: int): (r: seq<ChargingPhase>)
    requires |phases| == |bats|
    ensures |r| == |bats|
  {
    seq(|bats|, j requires 0 <= j < |bats| =>
      if bats[j].healthState != Missing && phases[j] == Float && bats[j].soc < floatBulkSoC then Bulk
      else phases[j])
  }

  /** FloatToBulk changes exactly the phases of present float batteries below floatBulkSoC, to bulk. */
  lemma FloatToBulkEffect(bats: seq<Battery>, phases: seq<ChargingPhase>, floatBulkSoC: int, j: int)
    requires |phases| == |bats| && 0 <= j < |bats|
    ensures var r := FloatToBulk(bats, phases, floatBulkSoC);
      && (r[j] != phases[j] <==> bats[j].healthState != Missing && phases[j] == Float && bats[j].soc < floatBulkSoC)
      && (r[j] != phases[j] ==> r[j] == Bulk)
      && (r[j] == Float ==> phases[j] == Float && (bats[j].healthState == Missing || bats[j].soc >= floatBulkSoC))
  {
  }

  predicate Finished(phases: seq<ChargingPhase>, id: int)
    requires 1 <= id <= |phases|
  {
    phases[id - 1] == Float || phases[id - 1] == Rest
  }

  /** The outcome of the decisions: targets, charger switch, status bits and charging phases. */
  datatype Decision = Decision(charge: int, load: int, chargerOff: bool, status: bv16, phases: seq<ChargingPhase>)

  /** Readings the decisions use besides the battery records. */
  datatype Readings = Readings(phases: seq<ChargingPhase>, voltages: seq<int>, panelVoltage: int)

  predicate ReadingsFit(rd: Readings, bats: seq<Battery>)
  {
    |rd.phases| == |bats| && |rd.voltages| == |bats|
  }

  predicate BelowPanel(bats: seq<Battery>, rd: Readings, id: int)
    requires ReadingsFit(rd, bats)
  {
    Present(bats, id) && rd.voltages[id - 1] < rd.panelVoltage + PANEL_MARGIN
  }

  predicate NotInFloat(bats: seq<Battery>, phases: seq<ChargingPhase>, id: int)
    requires |phases| == |bats|
  {
    Present(bats, id) && phases[id - 1] != Float
  }

  /**
   * Lines 472-539 with the ranked battery numbers converted to array
   * positions: float batteries below floatBulkSoC go to bulk, a charge
   * target in float or rest is released, the charger is off unless some
   * present battery is below the panel voltage, and off when every present
   * battery is in float.
   */
  function Preliminary(bats: seq<Battery>, rd: Readings, floatBulkSoC: int,
                       sort: seq<int>, numBats: int, charge: int, load: int): (d: Decision)
    requires ReadingsFit(rd, bats) && 0 <= numBats <= |sort| && ValidIds(sort, |bats|)
    requires 0 <= charge <= |bats|
    ensures d.load == load && |d.phases| == |bats|
  {
    var phases := FloatToBulk(bats, rd.phases, floatBulkSoC);
    var c1 := if charge > 0 && Finished(phases, charge) then 0 else charge;
    ChargerSwitch(bats, rd, sort, numBats, phases, c1, load)
  }

  /**
   * Lines 504-539: with the status word cleared, the charger is on (bit
   * 0x100) when some present battery is below the panel voltage, and off
   * (bit 0x200) when every present battery is in float; when it is off the
   * charge target is released.
   */
  function ChargerSwitch(bats: seq<Battery>, rd: Readings, sort: seq<int>, numBats: int,
                         phases: seq<ChargingPhase>, charge: int, load: int): (d: Decision)
    requires ReadingsFit(rd, bats) && 0 <= numBats <= |sort| && |phases| == |bats|
    ensures d.load == load && d.phases == phases
  {
    var ranked := sort[..numBats];
    var below := Pick(ranked, id => BelowPanel(bats, rd, id));
    var off := below == 0;
    var c2 := if off then 0 else charge;
    var s2: bv16 := if off then 0 else AddBits(0, CHARGER_ON);
    var active := Pick(ranked, id => 1 <= id <= |bats| && NotInFloat(bats, phases, id));
    if active == 0 then Decision(0, load, true, AddBits(s2, ALL_IN_FLOAT), phases)
    else Decision(c2, load, off, s2, phases)
  }

  // ---------------------------------------------------------------------
  // One battery

  /** Lines 546-561 with the array position corrected: both targets on the battery, no load if it is weak. */
  function SingleBattery(bats: seq<Battery>, sort: seq<int>, d: Decision): (r: Decision)
    requires |sort| >= 1 && ValidIds(sort, |bats|)
  {
    var index := sort[0];
    if WeakId(bats, index) then d.(charge := index, load := 0, status := AddBits(AddBits(d.status, ONE_BATTERY), 0x40))
    else d.(charge := index, load := index, status := AddBits(d.status, ONE_BATTERY))
  }

  // ---------------------------------------------------------------------
  // Several batteries

  predicate Chargeable(phases: seq<ChargingPhase>, id: int)
  {
    1 <= id <= |phases| && !Finished(phases, id)
  }

  /** The battery that is kept isolated when the strategy preserves isolation. */
  predicate Preserved(id: int, longest: int, strategy: int)
  {
    id == longest && HasBit(strategy, PRESERVE_ISOLATION)
  }

  /** A battery that may not take the loads because it holds the charger and the strategy separates them. */
  predicate Separated(id: int, charge: int, strategy: int)
  {
    id == charge && HasBit(strategy, SEPARATE_LOAD)
  }

  predicate FillIs(bats: seq<Battery>, id: int, f: FillState)
  {
    1 <= id <= |bats| && bats[id - 1].fillState == f
  }

  function SocOfId(bats: seq<Battery>, id: int): int
  {
    if 1 <= id <= |bats| then bats[id - 1].soc else 0
  }

  /**
   * Lines 590-611: release the charger when the lowest ranked battery is
   * not normal, take it when that battery is critical, then give it to the
   * lowest-ranked weak battery.
   */
  function UrgentCharger(bats: seq<Battery>, sort: seq<int>, numBats: int, d: Decision): (r: Decision)
    requires 2 <= numBats <= |sort| && ValidIds(sort, |bats|)
    ensures r.load == d.load && r.chargerOff == d.chargerOff && r.phases == d.phases
  {
    var lowest := sort[numBats - 1];
    var c1 := if !FillIs(bats, lowest, Normal) then 0 else d.charge;
    var critical := FillIs(bats, lowest, Critical);
    var c2 := if critical then lowest else c1;
    var s2 := if critical then AddBits(d.status, 0x08) else d.status;
    var w := Pick(LowFirst(sort, numBats), id => WeakId(bats, id));
    var c3 := if w != 0 then w else c2;
    var s3 := if w != 0 then AddBits(s2, 0x04) else s2;
    d.(charge := c3, status := s3)
  }

  /**
   * Lines 615-652: with no charge target, the lowest-ranked battery not in
   * float or rest, first sparing the preserved battery when there are more
   * than two.
   */
  function SpareCharger(sort: seq<int>, numBats: int, longest: int, strategy: int, d: Decision): (r: Decision)
    requires 2 <= numBats <= |sort|
    ensures r.load == d.load && r.chargerOff == d.chargerOff && r.phases == d.phases
  {
    var ph := d.phases;
    var low := LowFirst(sort, numBats);
    var spare := if d.charge == 0 && numBats > 2
                 then Pick(low, id => Chargeable(ph, id) && !Preserved(id, longest, strategy)) else 0;
    var c4 := if spare != 0 then spare else d.charge;
    var s4 := if spare != 0 then AddBits(d.status, 0x01) else d.status;
    var any := if c4 == 0 then Pick(low, id => Chargeable(ph, id)) else 0;
    var c5 := if any != 0 then any else c4;
    var s5 := if any != 0 then AddBits(s4, 0x02) else s4;
    d.(charge := c5, status := s5)
  }

  /**
   * Lines 658-677: a charge target that is normal moves to the
   * lowest-ranked battery more than 5% lower that is not in float or rest.
   */
  function LowerCharger(bats: seq<Battery>, sort: seq<int>, numBats: int, d: Decision): (r: Decision)
    requires 2 <= numBats <= |sort|
    ensures r.load == d.load && r.chargerOff == d.chargerOff && r.phases == d.phases
  {
    var ph := d.phases;
    var c5 := d.charge;
    var lower := if c5 != 0 && FillIs(bats, c5, Normal)
                 then Pick(LowFirst(sort, numBats), id => Chargeable(ph, id) && SocOfId(bats, c5) > SocOfId(bats, id) + SOC_HYSTERESIS)
                 else 0;
    var c6 := if lower != 0 then lower else c5;
    var s6 := if lower != 0 then AddBits(d.status, 0x03) else d.status;
    d.(charge := c6, status := s6)
  }

  /** The charger rules, lines 584-678, applied only while the charger is on. */
  function ChargerRules(bats: seq<Battery>, sort: seq<int>, numBats: int, longest: int, strategy: int,
                        d: Decision): (r: Decision)
    requires 2 <= numBats <= |sort| && ValidIds(sort, |bats|) && |d.phases| == |bats|
    ensures r.load == d.load && r.chargerOff == d.chargerOff && r.phases == d.phases
  {
    if d.chargerOff then d
    else LowerCharger(bats, sort, numBats, SpareCharger(sort, numBats, longest, strategy, UrgentCharger(bats, sort, numBats, d)))
  }

  /**
   * Lines 690-703: release the load from the charge target (when
   * separated), from a weak battery and from a battery that is not normal.
   */
  function ReleaseLoad(bats: seq<Battery>, strategy: int, d: Decision): (r: Decision)
    ensures r.charge == d.charge && r.chargerOff == d.chargerOff && r.phases == d.phases && r.status == d.status
    ensures r.load == 0 || r.load == d.load
    ensures r.load == 0 <==> || d.load == 0 || (d.load == d.charge && HasBit(strategy, SEPARATE_LOAD))
                             || WeakId(bats, d.load) || !FillIs(bats, d.load, Normal)
  {
    var l1 := if d.load == d.charge && HasBit(strategy, SEPARATE_LOAD) then 0 else d.load;
    var l2 := if l1 != 0 && WeakId(bats, l1) then 0 else l1;
    var l3 := if l2 != 0 && !FillIs(bats, l2, Normal) then 0 else l2;
    d.(load := l3)
  }

  /**
   * Lines 712-728: with no load target and more than two batteries, the
   * highest-ranked battery that is not weak, not preserved and not separated.
   */
  function SpareLoad(bats: seq<Battery>, sort: seq<int>, numBats: int, longest: int, strategy: int,
                     d: Decision): (r: Decision)
    requires 2 <= numBats <= |sort|
    ensures r.charge == d.charge && r.chargerOff == d.chargerOff && r.phases == d.phases
  {
    var bc := d.charge;
    var spare := if d.load == 0 && numBats > 2
                 then Pick(sort[..numBats], id => !WeakId(bats, id) && !Preserved(id, longest, strategy) && !Separated(id, bc, strategy))
                 else 0;
    if spare != 0 then d.(load := spare, status := AddBits(d.status, 0x10)) else d
  }

  /**
   * Lines 733-766: with still no load target, the highest-ranked battery
   * that is not weak and not separated, else not weak.
   */
  function FallbackLoad(bats: seq<Battery>, sort: seq<int>, numBats: int, strategy: int, d: Decision): (r: Decision)
    requires 2 <= numBats <= |sort|
    ensures r.charge == d.charge && r.chargerOff == d.chargerOff && r.phases == d.phases
  {
    var high := sort[..numBats];
    var bc := d.charge;
    var apart := if d.load == 0 then Pick(high, id => !WeakId(bats, id) && !Separated(id, bc, strategy)) else 0;
    var l5 := if apart != 0 then apart else d.load;
    var s5 := if apart != 0 then AddBits(d.status, 0x20) else d.status;
    var any := if l5 == 0 then Pick(high, id => !WeakId(bats, id)) else 0;
    var l6 := if any != 0 then any else l5;
    var s6 := if any != 0 then AddBits(s5, 0x40) else s5;
    d.(load := l6, status := s6)
  }

  /** Lines 712-766: the spare choice, then the fallbacks. */
  function ChooseLoad(bats: seq<Battery>, sort: seq<int>, numBats: int, longest: int, strategy: int,
                      d: Decision): (r: Decision)
    requires 2 <= numBats <= |sort|
    ensures r.charge == d.charge && r.chargerOff == d.chargerOff && r.phases == d.phases
  {
    FallbackLoad(bats, sort, numBats, strategy, SpareLoad(bats, sort, numBats, longest, strategy, d))
  }

  /** The load rules up to the rescan, lines 690-766. */
  function LoadSelection(bats: seq<Battery>, sort: seq<int>, numBats: int, longest: int, strategy: int,
                         d: Decision): (r: Decision)
    requires 2 <= numBats <= |sort| && ValidIds(sort, |bats|)
    ensures r.charge == d.charge && r.chargerOff == d.chargerOff && r.phases == d.phases
  {
    ChooseLoad(bats, sort, numBats, longest, strategy, ReleaseLoad(bats, strategy, d))
  }

  /** The highest-ranked battery, not weak and not separated, more than 5% below chargeSoC. */
  function RescanPick(bats: seq<Battery>, high: seq<int>, bc: int, chargeSoC: int, strategy: int): int
  {
    Pick(high, id => !WeakId(bats, id) && !Separated(id, bc, strategy) && chargeSoC > SocOfId(bats, id) + SOC_HYSTERESIS)
  }

  /**
   * The rescan, with no battery counting as better when there is no charge
   * target: if the load is on a battery that is not normal, move it to the
   * highest-ranked battery that is not weak, not separated and more than 5%
   * below the charge target.
   */
  function Rescan(bats: seq<Battery>, sort: seq<int>, numBats: int, strategy: int, d: Decision): (r: Decision)
    requires 2 <= numBats <= |sort| && ValidIds(sort, |bats|)
    ensures r.charge == d.charge && r.chargerOff == d.chargerOff && r.phases == d.phases
  {
    var bc := d.charge;
    var better := if d.load != 0 && !FillIs(bats, d.load, Normal) && bc != 0
                  then RescanPick(bats, sort[..numBats], bc, SocOfId(bats, bc), strategy) else 0;
    if better != 0 then d.(load := better, status := AddBits(d.status, 0x30)) else d
  }

  /** The final override: a load on a critical battery moves to a charge target that is not weak. */
  function Override(bats: seq<Battery>, d: Decision): (r: Decision)
    ensures r.charge == d.charge && r.chargerOff == d.chargerOff && r.phases == d.phases
    ensures r.load == d.load || r.load == d.charge
    ensures r.load == d.charge <==> || d.load == d.charge
                                    || (d.charge != 0 && d.load != 0 && !WeakId(bats, d.charge)
                                        && FillIs(bats, d.load, Critical))
  {
    var bc := d.charge;
    if bc != 0 && d.load != 0 && !WeakId(bats, bc) && FillIs(bats, d.load, Critical)
    then d.(load := bc, status := AddBits(d.status, 0x80))
    else d
  }

  /** The rescan and the final override, lines 771-800. */
  function LoadRescan(bats: seq<Battery>, sort: seq<int>, numBats: int, strategy: int, d: Decision): (r: Decision)
    requires 2 <= numBats <= |sort| && ValidIds(sort, |bats|)
    ensures r.charge == d.charge && r.chargerOff == d.chargerOff && r.phases == d.phases
  {
    Override(bats, Rescan(bats, sort, numBats, strategy, d))
  }

  /** Several batteries: status bit, charger rules, then load rules. */
  function SeveralBatteries(bats: seq<Battery>, sort: seq<int>, numBats: int, longest: int, strategy: int,
                            d: Decision): (r: Decision)
    requires 2 <= numBats <= |sort| && ValidIds(sort, |bats|) && |d.phases| == |bats|
    ensures r.chargerOff == d.chargerOff && r.phases == d.phases
  {
    var d1 := ChargerRules(bats, sort, numBats, longest, strategy, d.(status := AddBits(d.status, MANY_BATTERIES)));
    var d2 := LoadSelection(bats, sort, numBats, longest, strategy, d1);
    LoadRescan(bats, sort, numBats, strategy, d2)
  }

  /** All battery management decisions of one cycle (lines 467-800). */
  function Decide(bats: seq<Battery>, rd: Readings, floatBulkSoC: int, strategy: int,
                  sort: seq<int>, numBats: int, longest: int, charge: int, load: int): (d: Decision)
    requires ReadingsFit(rd, bats) && 0 <= numBats <= |sort| && ValidIds(sort, |bats|)
    requires 0 <= charge <= |bats|
    ensures |d.phases| == |bats|
  {
    var p := Preliminary(bats, rd, floatBulkSoC, sort, numBats, charge, load);
    if numBats == 1 then SingleBattery(bats, sort, p)
    else if numBats > 1 then SeveralBatteries(bats, sort, numBats, longest, strategy, p)
    else p
  }

  // ---------------------------------------------------------------------
  // Properties of the decisions

  lemma PickFacts(ids: seq<int>, ok: int -> bool)
    requires forall k | 0 <= k < |ids| :: ids[k] != 0
    ensures var r := Pick(ids, ok);
      && (r != 0 ==> r in ids && ok(r))
      && (r == 0 <==> forall k | 0 <= k < |ids| :: !ok(ids[k]))
  {
    var k := FirstIndex(ids, ok);
    if k < |ids| {
      assert ids[k] != 0;
    }
  }

  /** The present batteries are exactly those named in the first numBats ranked entries. */
  lemma RankedArePresent(sort: seq<int>, numBats: int, bats: seq<Battery>)
    requires RankedFor(sort, numBats, bats)
    ensures 0 <= numBats <= |sort| && ValidIds(sort, |bats|)
    ensures forall id :: id in sort[..numBats] <==> Present(bats, id)
  {
    var n := |bats|;
    var missing := MissingFlags(bats);
    forall id
      ensures id in sort[..numBats] <==> Present(bats, id)
    {
      if id in sort[..numBats] {
        var p :| 0 <= p < numBats && sort[..numBats][p] == id;
        assert sort[p] == id;
      }
      if Present(bats, id) {
        assert Ids(n)[id - 1] == id;
        assert id in multiset(Ids(n));
        assert id in multiset(sort);
        var p :| 0 <= p < |sort| && sort[p] == id;
        assert !IsMissing(missing, sort[p]);
        assert sort[..numBats][p] == id;
      }
    }
  }

  /** Targets from scans over the ranked list are present batteries. */
  /** The low-first list holds the same batteries as the high-first one. */
  lemma SameMembers(sort: seq<int>, numBats: int, ids: seq<int>)
    requires 0 <= numBats <= |sort|
    requires ids == sort[..numBats] || ids == LowFirst(sort, numBats)
    ensures forall id :: id in ids <==> id in sort[..numBats]
  {
    var high := sort[..numBats];
    if ids == LowFirst(sort, numBats) {
      forall id
        ensures id in ids <==> id in high
      {
        if id in ids {
          var i :| 0 <= i < numBats && ids[i] == id;
          assert high[numBats - i - 1] == id;
        }
        if id in high {
          var i :| 0 <= i < numBats && high[i] == id;
          assert ids[numBats - i - 1] == id;
        }
      }
    }
  }

  /** Picking from a list of exactly the present batteries. */
  lemma PickAmong(bats: seq<Battery>, ids: seq<int>, ok: int -> bool)
    requires forall id :: id in ids <==> Present(bats, id)
    ensures TargetOk(bats, Pick(ids, ok))
    ensures Pick(ids, ok) != 0 ==> ok(Pick(ids, ok))
    ensures Pick(ids, ok) == 0 <==> forall id | Present(bats, id) :: !ok(id)
  {
    assert forall k | 0 <= k < |ids| :: ids[k] != 0 by {
      forall k | 0 <= k < |ids|
        ensures ids[k] != 0
      {
        assert ids[k] in ids;
      }
    }
    PickFacts(ids, ok);
    if Pick(ids, ok) == 0 {
      forall id | Present(bats, id)
        ensures !ok(id)
      {
        var k :| 0 <= k < |ids| && ids[k] == id;
      }
    }
  }

  lemma PickPresent(sort: seq<int>, numBats: int, bats: seq<Battery>, ids: seq<int>, ok: int -> bool)
    requires RankedFor(sort, numBats, bats)
    requires ids == sort[..numBats] || ids == LowFirst(sort, numBats)
    ensures TargetOk(bats, Pick(ids, ok))
    ensures Pick(ids, ok) != 0 ==> ok(Pick(ids, ok))
    ensures Pick(ids, ok) == 0 <==> forall id | Present(bats, id) :: !ok(id)
  {
    RankedArePresent(sort, numBats, bats);
    SameMembers(sort, numBats, ids);
    PickAmong(bats, ids, ok);
  }

  lemma {:induction false} PreliminaryTargets(bats: seq<Battery>, rd: Readings, floatBulkSoC: int,
                                              sort: seq<int>, numBats: int, charge: int, load: int)
    requires ReadingsFit(rd, bats) && RankedFor(sort, numBats, bats)
    requires TargetOk(bats, charge)
    ensures 0 <= numBats <= |sort| && ValidIds(sort, |bats|)
    ensures var d := Preliminary(bats, rd, floatBulkSoC, sort, numBats, charge, load);
      && TargetOk(bats, d.charge)
      && (d.chargerOff ==> d.charge == 0)
      && (d.chargerOff <==> (forall id | Present(bats, id) :: !BelowPanel(bats, rd, id))
                            || (forall id | Present(bats, id) :: d.phases[id - 1] == Float))
      && (d.charge != 0 ==> d.charge == charge)
      && d.charge == (if charge == 0 || Finished(FloatToBulk(bats, rd.phases, floatBulkSoC), charge) || d.chargerOff
                      then 0 else charge)
  {
    RankedArePresent(sort, numBats, bats);
    var phases := FloatToBulk(bats, rd.phases, floatBulkSoC);
    PickPresent(sort, numBats, bats, sort[..numBats], id => BelowPanel(bats, rd, id));
    PickPresent(sort, numBats, bats, sort[..numBats], id => 1 <= id <= |bats| && NotInFloat(bats, phases, id));
  }

  /** The load never ends on a weak battery, for any number of batteries. */
  lemma {:induction false} LoadNeverWeak(bats: seq<Battery>, rd: Readings, floatBulkSoC: int, strategy: int,
                                         sort: seq<int>, numBats: int, longest: int, charge: int, load: int)
    requires ReadingsFit(rd, bats) && RankedFor(sort, numBats, bats)
    requires TargetOk(bats, charge) && TargetOk(bats, load)
    ensures 0 <= numBats <= |sort| && ValidIds(sort, |bats|)
    ensures var d := Decide(bats, rd, floatBulkSoC, strategy, sort, numBats, longest, charge, load);
      && TargetOk(bats, d.charge) && TargetOk(bats, d.load)
      && (d.load != 0 ==> !WeakId(bats, d.load))
  {
    RankedArePresent(sort, numBats, bats);
    PreliminaryTargets(bats, rd, floatBulkSoC, sort, numBats, charge, load);
    var p := Preliminary(bats, rd, floatBulkSoC, sort, numBats, charge, load);
    if numBats == 0 {
      assert !Present(bats, load);
    } else if numBats == 1 {
      assert sort[0] in sort[..numBats];
    } else {
      SeveralTargets(bats, sort, numBats, longest, strategy, p);
    }
  }

  lemma {:induction false} SeveralTargets(bats: seq<Battery>, sort: seq<int>, numBats: int, longest: int,
                                          strategy: int, d: Decision)
    requires RankedFor(sort, numBats, bats) && numBats >= 2 && |d.phases| == |bats|
    requires TargetOk(bats, d.charge) && TargetOk(bats, d.load)
    ensures 0 <= numBats <= |sort| && ValidIds(sort, |bats|)
    ensures var r := SeveralBatteries(bats, sort, numBats, longest, strategy, d);
      && TargetOk(bats, r.charge) && TargetOk(bats, r.load)
      && (r.load != 0 ==> !WeakId(bats, r.load))
  {
    RankedArePresent(sort, numBats, bats);
    var d0 := d.(status := AddBits(d.status, MANY_BATTERIES));
    ChargerTargets(bats, sort, numBats, longest, strategy, d0);
    var d1 := ChargerRules(bats, sort, numBats, longest, strategy, d0);
    LoadSelectionTargets(bats, sort, numBats, longest, strategy, d1);
    var d2 := LoadSelection(bats, sort, numBats, longest, strategy, d1);
    LoadRescanTargets(bats, sort, numBats, strategy, d2);
  }

  lemma UrgentTarget(bats: seq<Battery>, sort: seq<int>, numBats: int, d: Decision)
    requires RankedFor(sort, numBats, bats) && numBats >= 2 && TargetOk(bats, d.charge)
    ensures 0 <= numBats <= |sort| && ValidIds(sort, |bats|)
    ensures TargetOk(bats, UrgentCharger(bats, sort, numBats, d).charge)
  {
    RankedArePresent(sort, numBats, bats);
    assert sort[numBats - 1] in sort[..numBats];
    PickPresent(sort, numBats, bats, LowFirst(sort, numBats), id => WeakId(bats, id));
  }

  lemma SpareTarget(bats: seq<Battery>, sort: seq<int>, numBats: int, longest: int, strategy: int, d: Decision)
    requires RankedFor(sort, numBats, bats) && numBats >= 2 && TargetOk(bats, d.charge)
    ensures 0 <= numBats <= |sort|
    ensures TargetOk(bats, SpareCharger(sort, numBats, longest, strategy, d).charge)
  {
    var ph := d.phases;
    var low := LowFirst(sort, numBats);
    PickPresent(sort, numBats, bats, low, id => Chargeable(ph, id) && !Preserved(id, longest, strategy));
    PickPresent(sort, numBats, bats, low, id => Chargeable(ph, id));
  }

  lemma LowerTarget(bats: seq<Battery>, sort: seq<int>, numBats: int, d: Decision)
    requires RankedFor(sort, numBats, bats) && numBats >= 2 && TargetOk(bats, d.charge)
    ensures 0 <= numBats <= |sort|
    ensures TargetOk(bats, LowerCharger(bats, sort, numBats, d).charge)
  {
    var ph := d.phases;
    var c5 := d.charge;
    PickPresent(sort, numBats, bats, LowFirst(sort, numBats),
                id => Chargeable(ph, id) && SocOfId(bats, c5) > SocOfId(bats, id) + SOC_HYSTERESIS);
  }

  lemma {:induction false} ChargerTargets(bats: seq<Battery>, sort: seq<int>, numBats: int, longest: int,
                                          strategy: int, d: Decision)
    requires RankedFor(sort, numBats, bats) && numBats >= 2 && |d.phases| == |bats|
    requires TargetOk(bats, d.charge)
    ensures 0 <= numBats <= |sort| && ValidIds(sort, |bats|)
    ensures TargetOk(bats, ChargerRules(bats, sort, numBats, longest, strategy, d).charge)
  {
    RankedArePresent(sort, numBats, bats);
    if !d.chargerOff {
      UrgentTarget(bats, sort, numBats, d);
      var d1 := UrgentCharger(bats, sort, numBats, d);
      SpareTarget(bats, sort, numBats, longest, strategy, d1);
      LowerTarget(bats, sort, numBats, SpareCharger(sort, numBats, longest, strategy, d1));
    }
  }

  lemma {:induction false} LoadSelectionTargets(bats: seq<Battery>, sort: seq<int>, numBats: int, longest: int,
                                                strategy: int, d: Decision)
    requires RankedFor(sort, numBats, bats) && numBats >= 2
    requires TargetOk(bats, d.load)
    ensures 0 <= numBats <= |sort| && ValidIds(sort, |bats|)
    ensures var r := LoadSelection(bats, sort, numBats, longest, strategy, d);
      TargetOk(bats, r.load) && (r.load != 0 ==> !WeakId(bats, r.load))
  {
    RankedArePresent(sort, numBats, bats);
    var high := sort[..numBats];
    var bc := d.charge;
    PickPresent(sort, numBats, bats, high, id => !WeakId(bats, id) && !Preserved(id, longest, strategy) && !Separated(id, bc, strategy));
    PickPresent(sort, numBats, bats, high, id => !WeakId(bats, id) && !Separated(id, bc, strategy));
    PickPresent(sort, numBats, bats, high, id => !WeakId(bats, id));
  }

  lemma {:induction false} LoadRescanTargets(bats: seq<Battery>, sort: seq<int>, numBats: int,
                                             strategy: int, d: Decision)
    requires RankedFor(sort, numBats, bats) && numBats >= 2
    requires TargetOk(bats, d.charge) && TargetOk(bats, d.load) && (d.load != 0 ==> !WeakId(bats, d.load))
    ensures 0 <= numBats <= |sort| && ValidIds(sort, |bats|)
    ensures var r := LoadRescan(bats, sort, numBats, strategy, d);
      TargetOk(bats, r.load) && (r.load != 0 ==> !WeakId(bats, r.load))
  {
    RankedArePresent(sort, numBats, bats);
    var high := sort[..numBats];
    var bc := d.charge;
    PickPresent(sort, numBats, bats, high, id => !WeakId(bats, id) && !Separated(id, bc, strategy)
                                                 && SocOfId(bats, bc) > SocOfId(bats, id) + SOC_HYSTERESIS);
  }

  /** The charger is off exactly when no present battery is below the panel or all are in float; then it has no target unless one battery is present. */
  lemma {:induction false} ChargerOffRule(bats: seq<Battery>, rd: Readings, floatBulkSoC: int, strategy: int,
                                          sort: seq<int>, numBats: int, longest: int, charge: int, load: int)
    requires ReadingsFit(rd, bats) && RankedFor(sort, numBats, bats) && TargetOk(bats, charge)
    ensures 0 <= numBats <= |sort| && ValidIds(sort, |bats|)
    ensures var d := Decide(bats, rd, floatBulkSoC, strategy, sort, numBats, longest, charge, load);
      var phases := FloatToBulk(bats, rd.phases, floatBulkSoC);
      && d.phases == phases
      && (d.chargerOff <==> (forall id | Present(bats, id) :: !BelowPanel(bats, rd, id))
                            || (forall id | Present(bats, id) :: phases[id - 1] == Float))
      && (d.chargerOff && numBats != 1 ==> d.charge == 0)
  {
    RankedArePresent(sort, numBats, bats);
    PreliminaryTargets(bats, rd, floatBulkSoC, sort, numBats, charge, load);
  }

  /** With one battery present, it takes the charger, and the loads unless it is weak. */
  lemma {:induction false} SingleBatteryTargets(bats: seq<Battery>, rd: Readings, floatBulkSoC: int, strategy: int,
                                                sort: seq<int>, numBats: int, longest: int, charge: int, load: int)
    requires ReadingsFit(rd, bats) && RankedFor(sort, numBats, bats) && TargetOk(bats, charge)
    requires numBats == 1
    ensures 0 <= numBats <= |sort| && ValidIds(sort, |bats|)
    ensures var d := Decide(bats, rd, floatBulkSoC, strategy, sort, numBats, longest, charge, load);
      && Present(bats, d.charge)
      && (forall id | Present(bats, id) :: id == d.charge)
      && d.load == (if WeakId(bats, d.charge) then 0 else d.charge)
  {
    RankedArePresent(sort, numBats, bats);
    assert sort[0] in sort[..numBats];
    forall id | Present(bats, id)
      ensures id == sort[0]
    {
      assert id in sort[..1];
    }
  }

  /** A critical lowest-ranked battery takes the charger when no battery is weak. */
  lemma {:induction false} CriticalLowestTakesCharger(bats: seq<Battery>, sort: seq<int>, numBats: int, longest: int,
                                                      strategy: int, d: Decision)
    requires RankedFor(sort, numBats, bats) && numBats >= 2 && |d.phases| == |bats| && !d.chargerOff
    requires forall id | Present(bats, id) :: !WeakId(bats, id)
    ensures 0 <= numBats <= |sort| && ValidIds(sort, |bats|)
    ensures FillIs(bats, sort[numBats - 1], Critical) ==>
              SeveralBatteries(bats, sort, numBats, longest, strategy, d).charge == sort[numBats - 1]
  {
    RankedArePresent(sort, numBats, bats);
    PickPresent(sort, numBats, bats, LowFirst(sort, numBats), id => WeakId(bats, id));
  }

  /**
   * A weak battery takes the charger with priority: when some present
   * battery is weak and no weak battery has a normal fill, the charge target
   * is the lowest-ranked weak battery.
   */
  lemma {:induction false} WeakBatteryTakesCharger(bats: seq<Battery>, sort: seq<int>, numBats: int, longest: int,
                                                   strategy: int, d: Decision)
    requires RankedFor(sort, numBats, bats) && numBats >= 2 && |d.phases| == |bats| && !d.chargerOff
    requires exists id | Present(bats, id) :: WeakId(bats, id)
    requires forall id | WeakId(bats, id) :: !FillIs(bats, id, Normal)
    ensures 0 <= numBats <= |sort| && ValidIds(sort, |bats|)
    ensures var c := SeveralBatteries(bats, sort, numBats, longest, strategy, d).charge;
      && WeakId(bats, c) && Present(bats, c)
      && c == Pick(LowFirst(sort, numBats), id => WeakId(bats, id))
  {
    RankedArePresent(sort, numBats, bats);
    PickPresent(sort, numBats, bats, LowFirst(sort, numBats), id => WeakId(bats, id));
  }

  lemma {:induction false} PickSame(ids: seq<int>, f: int -> bool, g: int -> bool)
    requires forall k | 0 <= k < |ids| :: f(ids[k]) == g(ids[k])
    ensures Pick(ids, f) == Pick(ids, g) && FirstIndex(ids, f) == FirstIndex(ids, g)
    decreases |ids|
  {
    if ids != [] {
      PickSame(ids[1..], f, g);
    }
  }

  // ---------------------------------------------------------------------
  // What each rule chooses

  /**
   * r is the lowest-ranked of the first numBats ranked batteries that pass
   * ok, or 0 when none of them does.
   */
  predicate LowestPassing(sort: seq<int>, numBats: int, ok: int -> bool, r: int)
    requires 0 <= numBats <= |sort|
  {
    && (r == 0 <==> forall q | 0 <= q < numBats :: !ok(sort[q]))
    && (r != 0 ==> exists p | 0 <= p < numBats :: sort[p] == r && ok(r) && forall q | p < q < numBats :: !ok(sort[q]))
  }

  /**
   * r is the highest-ranked of the first numBats ranked batteries that pass
   * ok, or 0 when none of them does.
   */
  predicate HighestPassing(sort: seq<int>, numBats: int, ok: int -> bool, r: int)
    requires 0 <= numBats <= |sort|
  {
    && (r == 0 <==> forall q | 0 <= q < numBats :: !ok(sort[q]))
    && (r != 0 ==> exists p | 0 <= p < numBats :: sort[p] == r && ok(r) && forall q | 0 <= q < p :: !ok(sort[q]))
  }

  /** A scan of the ranked list from its low end finds the lowest-ranked battery passing the test. */
  lemma PickLowest(sort: seq<int>, numBats: int, n: int, ok: int -> bool)
    requires 0 <= numBats <= |sort| && ValidIds(sort, n)
    ensures LowestPassing(sort, numBats, ok, Pick(LowFirst(sort, numBats), ok))
  {
    var low := LowFirst(sort, numBats);
    var k := FirstIndex(low, ok);
    forall q | numBats - k - 1 < q < numBats
      ensures !ok(sort[q])
    {
      assert low[numBats - q - 1] == sort[q];
    }
    if k < numBats {
      assert low[k] == sort[numBats - k - 1];
    }
  }

  /** A scan of the ranked list from its high end finds the highest-ranked battery passing the test. */
  lemma PickHighest(sort: seq<int>, numBats: int, n: int, ok: int -> bool)
    requires 0 <= numBats <= |sort| && ValidIds(sort, n)
    ensures HighestPassing(sort, numBats, ok, Pick(sort[..numBats], ok))
  {
    var high := sort[..numBats];
    var k := FirstIndex(high, ok);
    forall q | 0 <= q < k
      ensures !ok(sort[q])
    {
      assert high[q] == sort[q];
    }
    if k < numBats {
      assert high[k] == sort[k];
    }
  }

  /**
   * The urgent charger rules: when a ranked battery is weak, the charger
   * goes to the lowest-ranked weak battery; otherwise it goes to a critical
   * lowest-ranked battery, stays where it was when that battery is normal,
   * and is released when that battery is low.
   */
  lemma UrgentChoice(bats: seq<Battery>, sort: seq<int>, numBats: int, d: Decision)
    requires 2 <= numBats <= |sort| && ValidIds(sort, |bats|)
    ensures var r := UrgentCharger(bats, sort, numBats, d);
      var lowest := sort[numBats - 1];
      && ((exists q | 0 <= q < numBats :: WeakId(bats, sort[q])) ==>
            LowestPassing(sort, numBats, id => WeakId(bats, id), r.charge))
      && ((forall q | 0 <= q < numBats :: !WeakId(bats, sort[q])) ==>
            r.charge == (if FillIs(bats, lowest, Critical) then lowest
                         else if FillIs(bats, lowest, Normal) then d.charge
                         else 0))
  {
    PickLowest(sort, numBats, |bats|, id => WeakId(bats, id));
  }

  /**
   * The spare-charger rules: a charge target is kept. Without one, and with
   * more than two batteries, the charger goes to the lowest-ranked battery
   * not in float or rest that is not kept isolated; failing that, to the
   * lowest-ranked battery not in float or rest, or to none.
   */
  lemma SpareChoice(sort: seq<int>, numBats: int, longest: int, strategy: int, d: Decision)
    requires 2 <= numBats <= |sort| && ValidIds(sort, |d.phases|)
    ensures var r := SpareCharger(sort, numBats, longest, strategy, d);
      var spare := id => Chargeable(d.phases, id) && !Preserved(id, longest, strategy);
      var any := id => Chargeable(d.phases, id);
      var spared := numBats > 2 && exists q | 0 <= q < numBats :: spare(sort[q]);
      && (d.charge != 0 ==> r.charge == d.charge)
      && (d.charge == 0 && spared ==> LowestPassing(sort, numBats, spare, r.charge))
      && (d.charge == 0 && !spared ==> LowestPassing(sort, numBats, any, r.charge))
  {
    var spare := id => Chargeable(d.phases, id) && !Preserved(id, longest, strategy);
    var any := id => Chargeable(d.phases, id);
    PickLowest(sort, numBats, |d.phases|, spare);
    PickLowest(sort, numBats, |d.phases|, any);
    var low := LowFirst(sort, numBats);
    if d.charge == 0 && numBats > 2 && Pick(low, spare) == 0 {
      assert forall q | 0 <= q < numBats :: !spare(sort[q]);
    }
  }

  /**
   * The move to a lower battery: a normal charge target moves to the
   * lowest-ranked battery not in float or rest whose SoC is more than 5%
   * below it, when there is one; otherwise the target stays.
   */
  lemma LowerChoice(bats: seq<Battery>, sort: seq<int>, numBats: int, d: Decision)
    requires 2 <= numBats <= |sort| && ValidIds(sort, |bats|)
    ensures var r := LowerCharger(bats, sort, numBats, d);
      var c := d.charge;
      var lower := id => Chargeable(d.phases, id) && SocOfId(bats, c) > SocOfId(bats, id) + SOC_HYSTERESIS;
      var moves := c != 0 && FillIs(bats, c, Normal) && exists q | 0 <= q < numBats :: lower(sort[q]);
      && (!moves ==> r.charge == c)
      && (moves ==> LowestPassing(sort, numBats, lower, r.charge))
  {
    var c := d.charge;
    var lower := id => Chargeable(d.phases, id) && SocOfId(bats, c) > SocOfId(bats, id) + SOC_HYSTERESIS;
    PickLowest(sort, numBats, |bats|, lower);
  }

  /**
   * The charger rules leave the charger without a target exactly when no
   * ranked battery is weak or outside float and rest, the lowest-ranked
   * battery is not critical, and there was no charge target to keep or the
   * lowest-ranked battery is not normal.
   */
  lemma {:induction false} ChargerRulesChoice(bats: seq<Battery>, sort: seq<int>, numBats: int, longest: int,
                                              strategy: int, d: Decision)
    requires 2 <= numBats <= |sort| && ValidIds(sort, |bats|) && |d.phases| == |bats| && !d.chargerOff
    ensures var r := ChargerRules(bats, sort, numBats, longest, strategy, d);
      var lowest := sort[numBats - 1];
      r.charge == 0 <==>
        && (forall q | 0 <= q < numBats :: !WeakId(bats, sort[q]) && !Chargeable(d.phases, sort[q]))
        && !FillIs(bats, lowest, Critical)
        && (d.charge == 0 || !FillIs(bats, lowest, Normal))
  {
    UrgentChoice(bats, sort, numBats, d);
    var d1 := UrgentCharger(bats, sort, numBats, d);
    SpareChoice(sort, numBats, longest, strategy, d1);
    var d2 := SpareCharger(sort, numBats, longest, strategy, d1);
    LowerChoice(bats, sort, numBats, d2);
    if d2.charge == 0 {
      assert forall q | 0 <= q < numBats :: !Chargeable(d.phases, sort[q]);
    }
  }

  /**
   * The spare-load rule: with no load target and more than two batteries,
   * the loads go to the highest-ranked battery that is not weak, not kept
   * isolated and not separated from the charger, or to none.
   */
  lemma SpareLoadChoice(bats: seq<Battery>, sort: seq<int>, numBats: int, longest: int, strategy: int, d: Decision)
    requires 2 <= numBats <= |sort| && ValidIds(sort, |bats|)
    ensures var r := SpareLoad(bats, sort, numBats, longest, strategy, d);
      var spare := id => !WeakId(bats, id) && !Preserved(id, longest, strategy) && !Separated(id, d.charge, strategy);
      && (d.load != 0 || numBats == 2 ==> r.load == d.load)
      && (d.load == 0 && numBats > 2 ==> HighestPassing(sort, numBats, spare, r.load))
  {
    var spare := id => !WeakId(bats, id) && !Preserved(id, longest, strategy) && !Separated(id, d.charge, strategy);
    PickHighest(sort, numBats, |bats|, spare);
  }

  /**
   * The fallback load rules: with no load target, the loads go to the
   * highest-ranked battery that is neither weak nor separated from the
   * charger; failing that, to the highest-ranked battery that is not weak,
   * or to none.
   */
  lemma FallbackChoice(bats: seq<Battery>, sort: seq<int>, numBats: int, strategy: int, d: Decision)
    requires 2 <= numBats <= |sort| && ValidIds(sort, |bats|)
    ensures var r := FallbackLoad(bats, sort, numBats, strategy, d);
      var apart := id => !WeakId(bats, id) && !Separated(id, d.charge, strategy);
      var any := id => !WeakId(bats, id);
      var found := exists q | 0 <= q < numBats :: apart(sort[q]);
      && (d.load != 0 ==> r.load == d.load)
      && (d.load == 0 && found ==> HighestPassing(sort, numBats, apart, r.load))
      && (d.load == 0 && !found ==> HighestPassing(sort, numBats, any, r.load))
  {
    var apart := id => !WeakId(bats, id) && !Separated(id, d.charge, strategy);
    var any := id => !WeakId(bats, id);
    PickHighest(sort, numBats, |bats|, apart);
    PickHighest(sort, numBats, |bats|, any);
  }

  /**
   * The load rules before the rescan leave the loads without a target
   * exactly when the release rules drop the load target and every ranked
   * battery is weak.
   */
  lemma {:induction false} LoadSelectionChoice(bats: seq<Battery>, sort: seq<int>, numBats: int, longest: int,
                                               strategy: int, d: Decision)
    requires 2 <= numBats <= |sort| && ValidIds(sort, |bats|)
    ensures var r := LoadSelection(bats, sort, numBats, longest, strategy, d);
      r.load == 0 <==> ReleaseLoad(bats, strategy, d).load == 0 && forall q | 0 <= q < numBats :: WeakId(bats, sort[q])
  {
    var d1 := ReleaseLoad(bats, strategy, d);
    SpareLoadChoice(bats, sort, numBats, longest, strategy, d1);
    var d2 := SpareLoad(bats, sort, numBats, longest, strategy, d1);
    FallbackChoice(bats, sort, numBats, strategy, d2);
    if d2.load != 0 && d1.load == 0 {
      assert exists q | 0 <= q < numBats :: !WeakId(bats, sort[q]);
    }
  }

  /**
   * The rescan: a load on a battery that is not normal moves, when there is
   * a charge target, to the highest-ranked battery that is not weak, not
   * separated from the charger and more than 5% below the charge target,
   * when there is one; otherwise the load stays.
   */
  lemma RescanChoice(bats: seq<Battery>, sort: seq<int>, numBats: int, strategy: int, d: Decision)
    requires 2 <= numBats <= |sort| && ValidIds(sort, |bats|)
    ensures var r := Rescan(bats, sort, numBats, strategy, d);
      var bc := d.charge;
      var better := id => !WeakId(bats, id) && !Separated(id, bc, strategy)
                          && SocOfId(bats, bc) > SocOfId(bats, id) + SOC_HYSTERESIS;
      var moves := d.load != 0 && !FillIs(bats, d.load, Normal) && bc != 0
                   && exists q | 0 <= q < numBats :: better(sort[q]);
      && (!moves ==> r.load == d.load)
      && (moves ==> HighestPassing(sort, numBats, better, r.load))
  {
    var bc := d.charge;
    var better := id => !WeakId(bats, id) && !Separated(id, bc, strategy)
                        && SocOfId(bats, bc) > SocOfId(bats, id) + SOC_HYSTERESIS;
    PickHighest(sort, numBats, |bats|, better);
  }

  /**
   * Under the separate-load strategy, load selection puts the loads on the
   * charge target only by its last-resort rule (bit 0x40), and only when
   * every other ranked battery is weak.
   */
  lemma {:induction false} SelectionSeparates(bats: seq<Battery>, sort: seq<int>, numBats: int, longest: int,
                                              strategy: int, d: Decision)
    requires 2 <= numBats <= |sort| && ValidIds(sort, |bats|) && HasBit(strategy, SEPARATE_LOAD)
    requires d.status & 0x40 == 0
    ensures var r := LoadSelection(bats, sort, numBats, longest, strategy, d);
      r.load == d.charge != 0 ==>
        && r.status & 0x40 != 0
        && forall q | 0 <= q < numBats :: WeakId(bats, sort[q]) || sort[q] == d.charge
  {
    var high := sort[..numBats];
    var bc := d.charge;
    var f := id => !WeakId(bats, id) && !Preserved(id, longest, strategy) && !Separated(id, bc, strategy);
    if Pick(high, f) != 0 {
      assert f(Pick(high, f));
    }
    var d1 := ReleaseLoad(bats, strategy, d);
    var d2 := SpareLoad(bats, sort, numBats, longest, strategy, d1);
    FallbackChoice(bats, sort, numBats, strategy, d2);
  }

  lemma OrKeeps(s: bv16, x: bv16)
    ensures (s | x) & s == s && (s | x) & x == x
  {
  }

  /** Bit 0x40 or 0x80 survives the rescan's additions to the status. */
  lemma BitsSurvive(s: bv16)
    ensures s & 0x40 != 0 || s & 0x80 != 0 ==> s & 0xC0 != 0
  {
  }

  /** Under the separate-load strategy the rescan never picks the charge target. */
  lemma RescanPickNotCharge(bats: seq<Battery>, high: seq<int>, bc: int, chargeSoC: int, strategy: int)
    requires HasBit(strategy, SEPARATE_LOAD) && bc != 0
    ensures RescanPick(bats, high, bc, chargeSoC, strategy) != bc
  {
    var f := id => !WeakId(bats, id) && !Separated(id, bc, strategy) && chargeSoC > SocOfId(bats, id) + SOC_HYSTERESIS;
    var k := FirstIndex(high, f);
    if k < |high| {
      assert f(high[k]);
    }
  }

  /** Under the separate-load strategy, the rescan reaches the charge target only by the critical override. */
  lemma RescanSeparates(bats: seq<Battery>, sort: seq<int>, numBats: int, strategy: int, d: Decision)
    requires 2 <= numBats <= |sort| && ValidIds(sort, |bats|) && HasBit(strategy, SEPARATE_LOAD)
    ensures var r := LoadRescan(bats, sort, numBats, strategy, d);
      r.load == d.charge != 0 ==>
        (d.load == d.charge && r.status & 0x40 == d.status & 0x40) || r.status & 0x80 != 0
  {
    if d.charge != 0 {
      RescanPickNotCharge(bats, sort[..numBats], d.charge, SocOfId(bats, d.charge), strategy);
    }
  }

  /**
   * With the separate-load strategy, the charge and load targets coincide
   * only through the last-resort load rule (status bit 0x40), when every
   * other ranked battery is weak, or through the critical-load override
   * (status bit 0x80).
   */
  lemma {:induction false} SeparateLoadShares(bats: seq<Battery>, sort: seq<int>, numBats: int, longest: int,
                                              strategy: int, d: Decision)
    requires 2 <= numBats <= |sort| && ValidIds(sort, |bats|) && |d.phases| == |bats|
    requires HasBit(strategy, SEPARATE_LOAD) && d.status & 0xC0 == 0
    ensures var r := SeveralBatteries(bats, sort, numBats, longest, strategy, d);
      && (r.charge == r.load != 0 ==> r.status & 0xC0 != 0)
      && (r.charge == r.load != 0 && r.status & 0x80 == 0 ==>
            forall q | 0 <= q < numBats :: WeakId(bats, sort[q]) || sort[q] == r.charge)
  {
    var d0 := d.(status := AddBits(d.status, MANY_BATTERIES));
    var d1 := ChargerRules(bats, sort, numBats, longest, strategy, d0);
    assert d1.status & 0xC0 == 0;
    var d2 := LoadSelection(bats, sort, numBats, longest, strategy, d1);
    var d3 := Rescan(bats, sort, numBats, strategy, d2);
    var r := Override(bats, d3);
    SelectionSeparates(bats, sort, numBats, longest, strategy, d1);
    RescanSeparates(bats, sort, numBats, strategy, d2);
    BitsSurvive(r.status);
    if r.status & 0x80 == 0 {
      assert r.load == d3.load;
    }
    assert r == SeveralBatteries(bats, sort, numBats, longest, strategy, d);
  }

  /** With at most two batteries present, the isolation record plays no part in the decisions. */
  lemma {:induction false} LongestIrrelevantBelowThree(bats: seq<Battery>, rd: Readings, floatBulkSoC: int,
                                                       strategy: int, sort: seq<int>, numBats: int,
                                                       longest1: int, longest2: int, charge: int, load: int)
    requires ReadingsFit(rd, bats) && 0 <= numBats <= |sort| && ValidIds(sort, |bats|) && 0 <= charge <= |bats|
    requires numBats <= 2
    ensures Decide(bats, rd, floatBulkSoC, strategy, sort, numBats, longest1, charge, load)
         == Decide(bats, rd, floatBulkSoC, strategy, sort, numBats, longest2, charge, load)
  {
    if numBats == 2 {
      var p := Preliminary(bats, rd, floatBulkSoC, sort, numBats, charge, load);
      var d0 := p.(status := AddBits(p.status, MANY_BATTERIES));
      var c1 := ChargerRules(bats, sort, numBats, longest1, strategy, d0);
      assert c1 == ChargerRules(bats, sort, numBats, longest2, strategy, d0);
      assert LoadSelection(bats, sort, numBats, longest1, strategy, c1)
          == LoadSelection(bats, sort, numBats, longest2, strategy, c1);
    }
  }

  // ---------------------------------------------------------------------
  // The longest-isolated battery (lines 432-449)

  /**
   * The scan for the longest-isolated battery over the positions below n:
   * the first present battery with the largest isolation time above 0, as
   * (battery number, its time), or (0, 0).
   */
  function LongestScan(bats: seq<Battery>, n: int): (r: (int, int))
    requires 0 <= n <= |bats|
    ensures r.0 == 0 ==> r.1 == 0
    ensures r.0 != 0 ==> 1 <= r.0 <= n && Present(bats, r.0) && r.1 == bats[r.0 - 1].isolationTime > 0
    ensures forall j | 0 <= j < n && bats[j].healthState != Missing :: bats[j].isolationTime <= r.1
    ensures r.0 != 0 ==> forall j | 0 <= j < r.0 - 1 && bats[j].healthState != Missing :: bats[j].isolationTime < r.1
    decreases n
  {
    if n == 0 then (0, 0)
    else
      var prev := LongestScan(bats, n - 1);
      if bats[n - 1].healthState != Missing && bats[n - 1].isolationTime > prev.1 then (n, bats[n - 1].isolationTime)
      else prev
  }

  /**
   * The scan as written covers positions below numBats, not below NUM_BATS;
   * it still finds the same battery whenever the result matters, that is
   * when all batteries are present (otherwise at most two are, and the
   * record is not used).
   */
  lemma {:induction false} LongestScanHarmless(bats: seq<Battery>, rd: Readings, floatBulkSoC: int, strategy: int,
                                               sort: seq<int>, numBats: int, charge: int, load: int)
    requires ReadingsFit(rd, bats) && RankedFor(sort, numBats, bats) && |bats| == NUM_BATS
    requires 0 <= charge <= |bats|
    ensures 0 <= numBats <= |sort| && ValidIds(sort, |bats|)
    ensures Decide(bats, rd, floatBulkSoC, strategy, sort, numBats, LongestScan(bats, numBats).0, charge, load)
         == Decide(bats, rd, floatBulkSoC, strategy, sort, numBats, LongestScan(bats, NUM_BATS).0, charge, load)
  {
    RankedArePresent(sort, numBats, bats);
    if numBats <= 2 {
      LongestIrrelevantBelowThree(bats, rd, floatBulkSoC, strategy, sort, numBats,
                                  LongestScan(bats, numBats).0, LongestScan(bats, NUM_BATS).0, charge, load);
    }
  }

  // ---------------------------------------------------------------------
  // The decisions as written, where they index the battery array with a
  // 1-based battery number. Position NUM_BATS lies past the end of the
  // arrays; what is read there is the parameter `stray`.

  /** The per-battery data the as-written code reads at array position p (0 <= p <= |bats|). */
  datatype Slot = Slot(health: HealthState, soc: int, phase: ChargingPhase, voltage: int)

  function SlotAt(bats: seq<Battery>, rd: Readings, stray: Slot, p: int): Slot
    requires ReadingsFit(rd, bats) && 0 <= p <= |bats|
  {
    if p < |bats| then Slot(bats[p].healthState, bats[p].soc, rd.phases[p], rd.voltages[p]) else stray
  }

  /**
   * Rule 1 of the preliminary decisions as written (lines 477-485): for each
   * ranked battery number id, the record and phase at array position id are
   * checked and that position is set to bulk.
   */
  function FloatToBulkAsWritten(bats: seq<Battery>, rd: Readings, floatBulkSoC: int, sort: seq<int>, numBats: int,
                                stray: Slot): (r: seq<ChargingPhase>)
    requires ReadingsFit(rd, bats) && 0 <= numBats <= |sort| && ValidIds(sort, |bats|)
    ensures |r| == |bats|
  {
    seq(|bats|, p requires 0 <= p < |bats| =>
      var s := SlotAt(bats, rd, stray, p);
      if p in sort[..numBats] && s.health != Missing && s.phase == Float && s.soc < floatBulkSoC then Bulk
      else rd.phases[p])
  }

  /** As written, the first battery is never returned from float to bulk; corrected, it is. */
  lemma FirstBatteryStaysInFloat(bats: seq<Battery>, rd: Readings, floatBulkSoC: int, sort: seq<int>, numBats: int,
                                 stray: Slot)
    requires ReadingsFit(rd, bats) && 0 <= numBats <= |sort| && ValidIds(sort, |bats|) && |bats| >= 1
    ensures FloatToBulkAsWritten(bats, rd, floatBulkSoC, sort, numBats, stray)[0] == rd.phases[0]
    ensures bats[0].healthState != Missing && rd.phases[0] == Float && bats[0].soc < floatBulkSoC ==>
              FloatToBulk(bats, rd.phases, floatBulkSoC)[0] == Bulk
  {
    assert 0 !in sort[..numBats];
  }

  /**
   * Rule 3 as written (lines 506-518): the voltage and health checked for
   * battery number id are those at array position id.
   */
  function ChargerOffAsWritten(bats: seq<Battery>, rd: Readings, sort: seq<int>, numBats: int, stray: Slot): bool
    requires ReadingsFit(rd, bats) && 0 <= numBats <= |sort| && ValidIds(sort, |bats|)
  {
    Pick(sort[..numBats], id => 0 <= id <= |bats| && SlotAt(bats, rd, stray, id).health != Missing
                                && SlotAt(bats, rd, stray, id).voltage < rd.panelVoltage + PANEL_MARGIN) == 0
  }

  /** The batteries of the examples: only the first present, at 12.5 V with the panel at 14 V. */
  const LONE_FIRST: seq<Battery> := [
    Battery(0, Normal, Isolated, Good, 20000, 0, 0),
    Battery(0, Normal, Isolated, Missing, 0, 0, 0),
    Battery(0, Normal, Isolated, Missing, 0, 0, 0)]
  const LONE_READINGS: Readings := Readings([Bulk, Bulk, Bulk], [3200, 0, 0], 3584)

  /**
   * As written, a lone first battery below the panel voltage is charged
   * only if the record after it is not Missing: here the charger is turned
   * off, while the corrected rule keeps it on.
   */
  lemma LoneFirstBatteryChargerOff(stray: Slot)
    ensures ChargerOffAsWritten(LONE_FIRST, LONE_READINGS, [1, 2, 3], 1, stray)
    ensures !Preliminary(LONE_FIRST, LONE_READINGS, 25600, [1, 2, 3], 1, 0, 0).chargerOff
  {
    assert [1, 2, 3][..1] == [1];
    var ok := id => 0 <= id <= |LONE_FIRST| && SlotAt(LONE_FIRST, LONE_READINGS, stray, id).health != Missing
                     && SlotAt(LONE_FIRST, LONE_READINGS, stray, id).voltage < LONE_READINGS.panelVoltage + PANEL_MARGIN;
    assert !ok(1);
    assert FirstIndex([1], ok) == 1;
    var below := id => BelowPanel(LONE_FIRST, LONE_READINGS, id);
    assert below(1);
    assert FirstIndex([1], below) == 0;
  }

  /**
   * The all-in-float test of rule 3 as written (lines 523-533): the health
   * and phase checked for battery number id are those at array position id.
   * True when the test finds every battery in float.
   */
  function AllInFloatAsWritten(bats: seq<Battery>, rd: Readings, sort: seq<int>, numBats: int, stray: Slot): bool
    requires ReadingsFit(rd, bats) && 0 <= numBats <= |sort| && ValidIds(sort, |bats|)
  {
    Pick(sort[..numBats], id => 0 <= id <= |bats| && SlotAt(bats, rd, stray, id).health != Missing
                                && SlotAt(bats, rd, stray, id).phase != Float) == 0
  }

  /** The batteries of the example: all three present and at 78% SoC, below a 14 V panel. */
  const ALL_PRESENT: seq<Battery> := [
    Battery(0, Normal, Isolated, Good, 20000, 0, 0),
    Battery(0, Normal, Isolated, Good, 20000, 0, 0),
    Battery(0, Normal, Isolated, Good, 20000, 0, 0)]
  /** Battery 1 in bulk, batteries 2 and 3 in float. */
  const BULK_FIRST_READINGS: Readings := Readings([Bulk, Float, Float], [3200, 3200, 3200], 3584)

  /**
   * As written, with battery 1 in bulk and the other two in float, the test
   * skips battery 1 and finds all in float whenever what lies past the
   * arrays reads as missing or in float, so the charger is turned off; the
   * corrected rule keeps it on.
   */
  lemma BulkFirstBatteryChargerOff(stray: Slot)
    requires stray.health == Missing || stray.phase == Float
    ensures AllInFloatAsWritten(ALL_PRESENT, BULK_FIRST_READINGS, [1, 2, 3], 3, stray)
    ensures !Preliminary(ALL_PRESENT, BULK_FIRST_READINGS, 12800, [1, 2, 3], 3, 0, 0).chargerOff
  {
    assert [1, 2, 3][..3] == [1, 2, 3];
    var ok := id => 0 <= id <= |ALL_PRESENT| && SlotAt(ALL_PRESENT, BULK_FIRST_READINGS, stray, id).health != Missing
                     && SlotAt(ALL_PRESENT, BULK_FIRST_READINGS, stray, id).phase != Float;
    assert !ok(1) && !ok(2) && !ok(3);
    assert FirstIndex([3], ok) == 1;
    assert FirstIndex([2, 3], ok) == 2;
    assert FirstIndex([1, 2, 3], ok) == 3;
    var phases := FloatToBulk(ALL_PRESENT, BULK_FIRST_READINGS.phases, 12800);
    assert phases[0] == Bulk;
    var below := id => BelowPanel(ALL_PRESENT, BULK_FIRST_READINGS, id);
    assert below(1);
    assert FirstIndex([1, 2, 3], below) == 0;
    var active := id => 1 <= id <= |ALL_PRESENT| && NotInFloat(ALL_PRESENT, phases, id);
    assert active(1);
    assert FirstIndex([1, 2, 3], active) == 0;
  }

  /** The single-battery rule as written (lines 546-561): the health checked is the one at array position id. */
  function SingleBatteryAsWritten(bats: seq<Battery>, rd: Readings, sort: seq<int>, d: Decision, stray: Slot): (r: Decision)
    requires ReadingsFit(rd, bats) && |sort| >= 1 && ValidIds(sort, |bats|)
  {
    var index := sort[0];
    if SlotAt(bats, rd, stray, index).health == Weak
    then d.(charge := index, load := 0, status := AddBits(AddBits(d.status, ONE_BATTERY), 0x40))
    else d.(charge := index, load := index, status := AddBits(d.status, ONE_BATTERY))
  }

  /** As written, a lone weak first battery keeps the loads; corrected, they are released. */
  lemma LoneWeakBatteryKeepsLoads(stray: Slot)
    ensures var bats := LONE_FIRST[0 := LONE_FIRST[0].(healthState := Weak)];
      var d := Decision(0, 1, false, 0, [Bulk, Bulk, Bulk]);
      && SingleBatteryAsWritten(bats, LONE_READINGS, [1, 2, 3], d, stray).load == 1
      && SingleBattery(bats, [1, 2, 3], d).load == 0
  {
  }

  /**
   * The load rescan as written (lines 771-800): with no charge target the
   * SoC compared is read before the start of the battery array; `straySoC`
   * is what is found there.
   */
  function LoadRescanAsWritten(bats: seq<Battery>, sort: seq<int>, numBats: int, strategy: int, d: Decision,
                               straySoC: int): (r: Decision)
    requires 2 <= numBats <= |sort| && ValidIds(sort, |bats|)
  {
    var bc := d.charge;
    var chargeSoC := if bc != 0 then SocOfId(bats, bc) else straySoC;
    var better := if d.load != 0 && !FillIs(bats, d.load, Normal)
                  then RescanPick(bats, sort[..numBats], bc, chargeSoC, strategy) else 0;
    var l7 := if better != 0 then better else d.load;
    var s7 := if better != 0 then AddBits(d.status, 0x30) else d.status;
    Override(bats, d.(load := l7, status := s7))
  }

  /** Three low batteries, the first one preserved in isolation, charger off. */
  const THREE_LOW: seq<Battery> := [
    Battery(0, Low, Isolated, Good, 12000, 0, 100),
    Battery(0, Low, Isolated, Good, 11000, 0, 10),
    Battery(0, Low, Isolated, Good, 10000, 0, 10)]

  /**
   * As written, with no charge target the rescan moves the load according
   * to whatever lies before the battery array: the load leaves battery 2
   * for the preserved battery 1 when that value is large, and stays when it
   * is 0. Corrected, it stays.
   */
  lemma StrayReadMovesLoad()
    ensures var d := Decision(0, 2, true, 0, [Float, Float, Float]);
      && LoadRescanAsWritten(THREE_LOW, [1, 2, 3], 3, PRESERVE_ISOLATION, d, 0xFFFF).load == 1
      && LoadRescanAsWritten(THREE_LOW, [1, 2, 3], 3, PRESERVE_ISOLATION, d, 0).load == 2
      && LoadRescan(THREE_LOW, [1, 2, 3], 3, PRESERVE_ISOLATION, d).load == 2
  {
    assert [1, 2, 3][..3] == [1, 2, 3];
  }

  /** Whenever there is a charge target the as-written rescan and the corrected one agree. */
  lemma RescanAgreesWithCharge(bats: seq<Battery>, sort: seq<int>, numBats: int, strategy: int, d: Decision,
                               straySoC: int)
    requires 2 <= numBats <= |sort| && ValidIds(sort, |bats|) && d.charge != 0
    ensures LoadRescanAsWritten(bats, sort, numBats, strategy, d, straySoC) == LoadRescan(bats, sort, numBats, strategy, d)
  {
  }
}
