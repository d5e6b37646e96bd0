# Battery management monitor: a Dafny model

This project models the core of the firmware of a three-battery solar power
management system. The core is the monitor task, and two smaller parts sit
beside it: the configuration record and the command side of the
communications task.

Every cycle, the monitor task does the following:

- counts the charge that went into or out of each battery;
- classifies each battery's fill and health;
- ranks the batteries by state of charge (SoC);
- decides which battery the solar charger serves and which battery carries
  the loads;
- updates each battery's operational state and isolation timer;
- computes the switch settings for automatic tracking;
- resynchronises the SoC from the open-circuit voltage after idle periods.

When a calibration is requested, the monitor task instead runs seven switch tests.
From them it finds each interface's current offset, detects missing
batteries and reports the quiescent current.

Quantities are fixed-point:

| quantity | unit |
|---|---|
| SoC | percent × 256 |
| voltage | volts × 256 |
| charge | coulombs × 256 |

Battery numbers in the targets and in the ranking are 1-based, with 0
meaning "none".

## Modules

- `Types`: the board sizes (3 batteries, 2 loads, 1 panel, 6 current interfaces, 7 calibration tests), the state enumerations and the battery record. It also holds the C width conversions (`ToU8`, `ToU16`, `ToI16`, `ToU32`), written out wherever the firmware's integer widths wrap.
- `SocModel`: `computeSoC`, the open-circuit-voltage model of SoC, with its uint32 arithmetic.
- `BatteryState`:
  - the SoC setters and the missing flag;
  - one cycle of Coulomb counting;
  - fill classification and the dropout test.
- `Ranking`: the two bubble sorts of the battery list.
  - They are specification functions over sequences.
  - The lemmas prove that the result is a ranking: a permutation of 1..n, present batteries first, in non-increasing SoC order with ties in number order.
- `Allocation`: the charger and load decision chains, as functions. Each rule that may overwrite a target is a let-binding, in source order.
- `Calibration`: the calibration test schedule, missing-battery detection from the indicator bits, the offset minimum and the quiescent maximum.
- `Tracker`: the operational-state and isolation-timer update, the automatic-tracking switch plan, and the SoC resynchronisation after idle time.
- `Monitor`: the engine class `MonitorEngine`.
  - It holds the static battery array, the two targets, the charger-off flag, the decision status word, the current offsets and the calibration request.
  - The steps of a cycle and of a calibration are methods that update this state in place. Each step method is proved to leave the state that a specification function of the modules above gives. `Cycle` is proved against the composition of those functions, so their lemmas carry over to the engine.
- `ObjDic`: the configuration record.
  - Its defaults and the valid-block marker, the per-type charge parameters, the control bits, the current offsets and the derived current limits.
  - The class `ObjectDictionary` holds the working record and the block in flash.
- `Comms`: the command side of the communications task.
  - `CommandLine.Receive` assembles received characters into a line.
  - The `a` and `p` commands are a transformer on the configuration record. It returns the requests those commands make outside the record as an `Effect`.
  - `PrintHex` is `commsPrintHex`'s four-digit hexadecimal output.

Hardware readings are method parameters: voltages, currents, panel voltage,
temperature, accumulated charge, indicator bits and the charger task's
charging phase. Each is a snapshot taken for the cycle.

The following header values are parameters, because the header that defines
them is not part of this model:

- the dropout voltage;
- the temperature limit;
- the default thresholds and capacities.

The numbering of the battery types is also defined in that header. The model
assumes the numbering wet = 0, AGM = 1, gel = 2 and declares it as constants.

Where the code and its documentation differ, the model follows the code, except at the seven places listed under "## Findings", where the engine uses the corrected definition. The differences it follows are these:

- `computeSoC` is total. The uint32 wrap of `12518 - temperature` and of `voltage * 65536` is written out; the function does not require the temperature to be at most 48.9 °C. `TemperatureWrapHarmless` shows that the wrap of the temperature difference does not change the correction factor.
- `setBatterySoC` tests the previous SoC, not the new one. `SetSoC` states this.
- The dropout test sets the SoC to 0 and leaves the charge alone. `CoulombUpdateBounds` states this.
- The isolation timer is restarted when both targets are 0, because the code compares them for equality. `NoTargetsRestartTimers` states this.
- The charger-release rule at line 590 tests the lowest-ranked battery's fill, not the charge target's. `UrgentCharger` models it that way.
- `currentSteady` is a uint16 and wraps. `SteadyCounterWraps` states this.

## Model

| member | source | states |
|---|---|---|
| SocModel.TempDiff | firmware/power-management-monitor.c:972 | the uint32 temperature difference to 48.9 °C, shifted right by 2, lies in [0, 2^30) for every uint32 temperature |
| SocModel.VFactor | firmware/power-management-monitor.c:974 | the temperature correction factor lies in [61441, 65536], so the division by it at line 976 never divides by zero |
| SocModel.Ocv | firmware/power-management-monitor.c:976 | the referred open-circuit voltage lies in [0, 69903], within the int32 it is stored in, for every uint32 voltage and temperature |
| SocModel.V100 | firmware/power-management-monitor.c:968-970 | the open-circuit voltage at 100% is the wet-battery reference or the gel/AGM reference |
| SocModel.ComputeSoC | firmware/power-management-monitor.c:964-995 | computeSoC returns a SoC in [0, 25600] for every voltage, temperature and type |
| SocModel.RawSoCFitsInt32 | firmware/power-management-monitor.c:976-990 | the intermediate SoC before the shift fits int32 for every input |
| SocModel.FullChargeReference | firmware/power-management-monitor.c:968-993 | a wet battery at 3242 (12.66 V) and 12518 (48.9 °C) reads exactly 25600 |
| SocModel.EmptyReference | firmware/power-management-monitor.c:968-993 | a wet battery at 3000 (11.72 V) and 48.9 °C reads exactly 0 |
| SocModel.RawSoCMonotone | firmware/power-management-monitor.c:978-990 | a higher referred open-circuit voltage never gives a lower intermediate SoC, for every type |
| SocModel.ComputeSoCMonotone | firmware/power-management-monitor.c:964-995 | for voltages below 65536 (no wrap in voltage*65536), a higher voltage never gives a lower SoC, at any temperature and type |
| SocModel.TempDiffWrap | firmware/power-management-monitor.c:972 | for int32 temperatures, the uint32 difference is the signed one at or below 48.9 °C, and 2^30 plus it above |
| SocModel.SignedVFactor | firmware/power-management-monitor.c:972-974 | the reference correction factor, computed from a signed temperature difference, also lies in [61441, 65536] |
| SocModel.TemperatureWrapHarmless | firmware/power-management-monitor.c:972-974 | for every int32 temperature, the factor computed from the wrapped uint32 difference equals the signed-difference factor |
| BatteryState.SocOfChargeBounded | firmware/power-management-monitor.c:360-364 | a charge within [0, capacity·3600·256] gives SoC = charge/(capacity·36) within [0, 25600] |
| BatteryState.SetSoC | firmware/power-management-monitor.c:1104-1110 | setBatterySoC always sets the charge to soc·capacity·36, sets the SoC to the requested value unless the previous SoC exceeded 25600 (then 25600), and changes nothing else |
| BatteryState.SetSoCConsistent | firmware/power-management-monitor.c:1104-1110 | for a record whose SoC is at most 25600, the SoC becomes the requested value, the charge represents exactly that SoC, and the record invariant holds |
| BatteryState.ResetSoC | firmware/power-management-monitor.c:1088-1092 | resetBatterySoC leaves SoC 25600 and full charge, marks the fill Faulty exactly when the prior SoC was below 25600, and keeps health, operational state and counters |
| BatteryState.SetMissing | firmware/power-management-monitor.c:1129-1133 | the health is Missing exactly when asked, and Good otherwise; nothing else changes |
| BatteryState.CriticalUnreachableAsWritten | firmware/power-management-monitor.c:369-374 | as written, when the critical thresholds are at or below the low ones, the classification never yields Critical |
| BatteryState.CriticalBatteryReportedLow | firmware/power-management-monitor.c:369-374 | a 10% battery with low 50% and critical 30% thresholds is classified Low as written, and Critical by the corrected classification |
| BatteryState.ClassifyFill | firmware/power-management-monitor.c:368-374 | the corrected classification gives Critical exactly below a critical threshold; Low exactly when not critical and below a low threshold; never Faulty |
| BatteryState.ClassifyFillMonotone | firmware/power-management-monitor.c:368-374 | a lower voltage or SoC never gives a better fill state |
| BatteryState.CoulombUpdateBounds | firmware/power-management-monitor.c:358-392 | one cycle keeps 0 ≤ charge ≤ capacity·3600·256 with the int32 sum not overflowing, and SoC = charge/(capacity·36) ≤ 25600 unless the dropout test zeroed it (then Critical with SoC 0, charge kept). Otherwise the fill state is ClassifyFill of the new SoC and the voltage. Health becomes Good in rest, else Weak below the dropout voltage, else stays; other fields are kept |
| Ranking.Pass | firmware/power-management-monitor.c:405-414 | one inner loop of a bubble sort keeps the list a list of battery numbers of the same length |
| Ranking.Sort | firmware/power-management-monitor.c:403-429 | the passes of a bubble sort keep the list a list of battery numbers of the same length |
| Ranking.SortInvariant | firmware/power-management-monitor.c:403-415 | after i passes of the SoC sort, the last i positions are in non-increasing SoC order and none has a higher SoC than an earlier position, and equal SoCs stay in number order |
| Ranking.SortPermutes | firmware/power-management-monitor.c:403-429 | any number of bubble-sort passes, under either swap test, permutes the battery list |
| Ranking.SocSortInRankOrder | firmware/power-management-monitor.c:402-415 | the SoC sort of 1..n lists the batteries in non-increasing SoC, with equal SoCs in battery-number order |
| Ranking.MissingSortKeepsOrder | firmware/power-management-monitor.c:418-429 | the missing-battery sort keeps the relative rank order of the present batteries |
| Ranking.MissingSortTail | firmware/power-management-monitor.c:418-429 | after i passes of the missing-battery sort, every position from n-i on that follows a Missing battery is Missing |
| Ranking.CountPermutation | firmware/power-management-monitor.c:418-429 | permuting the list does not change how many present batteries it names |
| Ranking.RankPermutes | firmware/power-management-monitor.c:402-429 | the ranking is a permutation of 1..n |
| Ranking.RankPresentFirst | firmware/power-management-monitor.c:344-429 | the first numBats entries of the ranking are exactly the present batteries, where numBats is the count of present batteries, and the rest are Missing |
| Ranking.RankOrdersPresent | firmware/power-management-monitor.c:402-429 | present batteries appear in non-increasing SoC order, with ties in battery-number order |
| Ranking.RankCorrect | firmware/power-management-monitor.c:402-429 | the ranking satisfies all of the above |
| Allocation.FloatToBulk | firmware/power-management-monitor.c:478-485 | rule 1, corrected, gives one phase per battery; its effect is stated by FloatToBulkEffect |
| Allocation.FloatToBulkEffect | firmware/power-management-monitor.c:478-485 | rule 1, corrected, changes exactly the phases of present float batteries below floatBulkSoC, and changes them to bulk |
| Allocation.Preliminary | firmware/power-management-monitor.c:470-539 | the preliminary decisions keep the load target and give one phase per battery; their targets are stated by PreliminaryTargets |
| Allocation.PreliminaryTargets | firmware/power-management-monitor.c:470-539 | the charge target stays absent or present. The charger is off exactly when no present battery is below panel + 0.5 V, or all present batteries are in float; then there is no charge target. The charge target ends 0 exactly when there was none, its battery is in float or rest after rule 1, or the charger is off; otherwise it is kept |
| Allocation.ChargerSwitch | firmware/power-management-monitor.c:504-539 | the charger switch rules keep the load target and the phases |
| Allocation.ChargerOffRule | firmware/power-management-monitor.c:470-539 | after all decisions the phases are rule 1's. The charger is off exactly when no present battery is below the panel or all are in float; when it is off there is no charge target unless exactly one battery is present |
| Allocation.SingleBatteryTargets | firmware/power-management-monitor.c:546-561 | with one battery present, it takes the charger, and the loads unless it is weak |
| Allocation.UrgentCharger | firmware/power-management-monitor.c:590-611 | the urgent charger rules change only the charge target and the status |
| Allocation.UrgentTarget | firmware/power-management-monitor.c:590-611 | the urgent charger rules leave the charge target absent or present |
| Allocation.SpareCharger | firmware/power-management-monitor.c:615-654 | the spare-charger rules change only the charge target and the status |
| Allocation.SpareTarget | firmware/power-management-monitor.c:615-654 | the spare-charger rules leave the charge target absent or present |
| Allocation.LowerCharger | firmware/power-management-monitor.c:658-677 | the move to a lower battery changes only the charge target and the status |
| Allocation.LowerTarget | firmware/power-management-monitor.c:658-677 | the move to a lower battery leaves the charge target absent or present |
| Allocation.ChargerRules | firmware/power-management-monitor.c:584-678 | the charger rules never touch the load target, the charger switch or the phases |
| Allocation.ChargerTargets | firmware/power-management-monitor.c:584-678 | after the charger rules the charge target is absent or present |
| Allocation.CriticalLowestTakesCharger | firmware/power-management-monitor.c:590-611 | with no weak battery and the charger on, a critical lowest-ranked battery ends with the charger |
| Allocation.WeakBatteryTakesCharger | firmware/power-management-monitor.c:604-611 | when some present battery is weak, none of the weak ones is normal, and the charger is on, the charge target is the lowest-ranked weak battery |
| Allocation.UrgentChoice | firmware/power-management-monitor.c:590-611 | when a ranked battery is weak, the charge target becomes the lowest-ranked weak battery. Otherwise it becomes the lowest-ranked battery when that is critical, is kept when that battery is normal, and is released when it is low or faulty |
| Allocation.SpareChoice | firmware/power-management-monitor.c:615-654 | a charge target is kept. Without one, and with more than two batteries, the target becomes the lowest-ranked battery not in float or rest and not kept isolated. Failing that, it becomes the lowest-ranked battery not in float or rest, or none when there is no such battery |
| Allocation.LowerChoice | firmware/power-management-monitor.c:658-677 | a normal charge target moves to the lowest-ranked battery not in float or rest whose SoC is more than 5% below it, when one exists; otherwise the target is kept |
| Allocation.ChargerRulesChoice | firmware/power-management-monitor.c:584-678 | with the charger on, the charger rules leave no charge target exactly when no ranked battery is weak or outside float and rest, the lowest-ranked battery is not critical, and there was no target or that battery is not normal |
| Allocation.ReleaseLoad | firmware/power-management-monitor.c:690-705 | the release rules change only the load target, and either keep it or drop it to 0. They drop it exactly when there is none, when it is the charge target under the separate-load strategy, or when its battery is weak or not normal |
| Allocation.SpareLoad | firmware/power-management-monitor.c:712-729 | the spare-load rule changes only the load target and the status |
| Allocation.FallbackLoad | firmware/power-management-monitor.c:733-766 | the fallback load rules change only the load target and the status |
| Allocation.ChooseLoad | firmware/power-management-monitor.c:712-766 | the load choice changes only the load target and the status |
| Allocation.LoadSelection | firmware/power-management-monitor.c:690-766 | the load rules before the rescan change only the load target and the status |
| Allocation.SpareLoadChoice | firmware/power-management-monitor.c:712-729 | a load target is kept, and so is its absence with two batteries. With no load target and more than two batteries, the load becomes the highest-ranked battery that is not weak, not kept isolated and not separated from the charger, or none |
| Allocation.FallbackChoice | firmware/power-management-monitor.c:733-766 | a load target is kept. Without one, the load becomes the highest-ranked battery that is neither weak nor separated from the charger. Failing that, it becomes the highest-ranked battery that is not weak, or none |
| Allocation.LoadSelectionChoice | firmware/power-management-monitor.c:690-766 | the load rules before the rescan leave no load target exactly when the release rules dropped it and every ranked battery is weak |
| Allocation.LoadSelectionTargets | firmware/power-management-monitor.c:690-766 | after the load rules the load target is absent, or a present battery that is not weak |
| Allocation.Rescan | firmware/power-management-monitor.c:771-789 | the corrected rescan changes only the load target and the status |
| Allocation.RescanChoice | firmware/power-management-monitor.c:771-789 | a load on a battery that is not normal moves, when there is a charge target, to the highest-ranked battery that is not weak, not separated and more than 5% below the charge target, if one exists. Otherwise the load is kept |
| Allocation.Override | firmware/power-management-monitor.c:794-800 | the critical-load override changes only the load target and the status. The load either stays or moves to the charge target. It ends there exactly when it already was there, or when the charge target is present and not weak and the load's battery is critical |
| Allocation.LoadRescan | firmware/power-management-monitor.c:771-800 | the rescan and override change only the load target and the status |
| Allocation.LoadRescanTargets | firmware/power-management-monitor.c:771-800 | the rescan and override keep the load target absent, or a present battery that is not weak |
| Allocation.SeveralBatteries | firmware/power-management-monitor.c:570-800 | with several batteries present, the rules keep the charger switch and the phases |
| Allocation.SeveralTargets | firmware/power-management-monitor.c:570-800 | with several batteries present, both targets end absent or present, and the load never on a weak battery |
| Allocation.Decide | firmware/power-management-monitor.c:467-800 | the decisions give one charging phase per battery |
| Allocation.LoadNeverWeak | firmware/power-management-monitor.c:467-800 | for any number of batteries, both targets end absent or present, and the loads never end on a weak battery |
| Allocation.SelectionSeparates | firmware/power-management-monitor.c:690-766 | under the separate-load strategy, starting with bit 0x40 clear, the load rules put the loads on the charge target only through the last-resort rule. That rule sets bit 0x40, and it applies only when every other ranked battery is weak |
| Allocation.RescanPickNotCharge | firmware/power-management-monitor.c:776-788 | under the separate-load strategy, the rescan never picks the charge target |
| Allocation.RescanSeparates | firmware/power-management-monitor.c:771-800 | under the separate-load strategy, the rescan and override reach the charge target only by keeping the previous load or through the override (bit 0x80) |
| Allocation.SeparateLoadShares | firmware/power-management-monitor.c:570-800 | under the separate-load strategy, starting with bits 0x40 and 0x80 clear, the two targets coincide only with one of those bits set. Without the override's bit 0x80, every other ranked battery is weak |
| Allocation.LongestIrrelevantBelowThree | firmware/power-management-monitor.c:432-766 | with at most two batteries present, the longest-isolated battery plays no part in the decisions |
| Allocation.LongestScan | firmware/power-management-monitor.c:432-449 | the scan yields 0, or the first present battery below the bound with the largest isolation time above 0, together with that time |
| Allocation.LongestScanHarmless | firmware/power-management-monitor.c:436 | scanning positions below numBats instead of all three gives the same decisions |
| Allocation.FloatToBulkAsWritten | firmware/power-management-monitor.c:478-485 | rule 1 as written, indexing records and phases by the 1-based battery number, gives one phase per battery |
| Allocation.FirstBatteryStaysInFloat | firmware/power-management-monitor.c:480-483 | as written, the first battery's phase is never changed; corrected, a present first battery in float below floatBulkSoC goes to bulk |
| Allocation.LoneFirstBatteryChargerOff | firmware/power-management-monitor.c:509-511 | as written, a lone first battery below the panel voltage has the charger turned off; corrected, the charger stays on |
| Allocation.AllInFloatAsWritten | firmware/power-management-monitor.c:523-533 | the all-in-float test as written, reading the health and phase of battery number id at array position id, with the position past the arrays read as a parameter |
| Allocation.BulkFirstBatteryChargerOff | firmware/power-management-monitor.c:523-533 | as written, three present batteries below the panel, battery 1 in bulk and the others in float, are all found in float, so the charger is turned off whenever the stray read is missing or in float; corrected, the charger stays on |
| Allocation.LoneWeakBatteryKeepsLoads | firmware/power-management-monitor.c:556 | as written, a lone weak first battery keeps the loads; corrected, they are released |
| Allocation.StrayReadMovesLoad | firmware/power-management-monitor.c:780 | as written, with no charge target, the value read before the battery array decides whether the load moves; corrected, it stays |
| Allocation.RescanAgreesWithCharge | firmware/power-management-monitor.c:771-800 | whenever there is a charge target, the rescan as written and the corrected rescan agree |
| Calibration.TestSwitches | firmware/power-management-monitor.c:144-149 | one setting per switch line (load 1, load 2, panel) |
| Calibration.ScheduleCovers | firmware/power-management-monitor.c:144-149 | each battery is put on each load in exactly one test, the panel line is never connected, and the last test leaves every line open |
| Calibration.MarkTest | firmware/power-management-monitor.c:159-166 | one test's indicator check gives one record per battery |
| Calibration.MarkAll | firmware/power-management-monitor.c:141-166 | the indicator checks of all tests give one record per battery; their effect is stated by MarkAllEffect |
| Calibration.MarkAllEffect | firmware/power-management-monitor.c:159-166 | across the tests a battery ends Missing exactly when it was Missing or some indicator reading showed it off, then with SoC and charge 0. Missing is never cleared, a battery never shown off is untouched, and the record invariant holds |
| Calibration.MinScanIsMinimum | firmware/power-management-monitor.c:176-189 | the running minimum is 100 exactly when no sample lies strictly between -50 and 100, otherwise the smallest such sample |
| Calibration.OffsetIsMinimum | firmware/power-management-monitor.c:176-192 | an interface's offset is its smallest sample strictly between -50 and 100, or 0 when there is none |
| Calibration.Corrected | firmware/power-management-monitor.c:194-197 | the offset is removed from every one of an interface's samples |
| Calibration.CorrectedFromZero | firmware/power-management-monitor.c:176-197 | after the offset is removed, the sample that gave it reads 0 and no in-range sample reads below 0 |
| Calibration.QuiescentSamplesContent | firmware/power-management-monitor.c:203-206 | a value is among the quiescent samples exactly when some battery that is not Missing has it among its corrected samples |
| Calibration.MaxScanIsMaximum | firmware/power-management-monitor.c:207-215 | the running maximum is the start value exactly when no sample exceeds -50, otherwise the largest such sample |
| Calibration.QuiescentIsMaximum | firmware/power-management-monitor.c:201-217 | the quiescent current is the largest corrected battery-interface sample above -50 over the batteries that are not Missing, or -100 when there is none |
| Calibration.MaxScanConcat | firmware/power-management-monitor.c:203-215 | the maximum over consecutive batteries continues from the earlier batteries' result |
| Calibration.FinaliseEffect | firmware/power-management-monitor.c:226-237 | at the end, a present battery takes the OCV SoC (consistent with its charge), is isolated, and has both counters cleared; a Missing battery is untouched |
| Tracker.UpdateAll | firmware/power-management-monitor.c:809-847 | the state update gives one record per battery |
| Tracker.UpdateStateEffect | firmware/power-management-monitor.c:809-847 | a present battery is Charging exactly when it is the charge target, Loaded exactly when it is the load target and not the charge target, else Isolated. Its timer is 10 when not Isolated or when the targets are equal, and kept otherwise. The SoC changes only to the OCV SoC, on leaving an isolation longer than four hours. A Missing battery is untouched |
| Tracker.TargetsExclusive | firmware/power-management-monitor.c:809-847 | among present batteries, at most one is Charging and at most one is Loaded, never the same one, and each as its target says |
| Tracker.NoTargetsRestartTimers | firmware/power-management-monitor.c:844-846 | with no targets, every present battery is Isolated with its timer restarted at 10 |
| Tracker.StraySwitchReadHarmless | firmware/power-management-monitor.c:856-863 | the read of battery[-1] when there is no load target does not change the switch settings |
| Tracker.SwitchDecisionSafe | firmware/power-management-monitor.c:848-875 | load 2 follows the load target. Load 1 follows it unless that battery is critical, and is otherwise off. The panel is set only below the temperature limit, and the preferred battery is the charge target |
| Tracker.ResyncBounds | firmware/power-management-monitor.c:885-912 | after the resync, a present battery's steady counter is at most an hour of cycles, and 0 under a non-steady current. Its isolation timer is at most eight hours. The SoC changes only to the OCV SoC; health, fill and operational state are kept; a Missing battery is untouched |
| Tracker.SteadyCounterWraps | firmware/power-management-monitor.c:891-899 | when an hour is 65535 cycles or more, the uint16 steady counter wraps to 0 and the steady-current resync never fires |
| Monitor.OcvSoC | firmware/power-management-monitor.c:964-995 | the SoC from a battery's readings lies in [0, 25600] |
| Monitor.OcvSocs | firmware/power-management-monitor.c:933-937 | every battery's OCV SoC, each in [0, 25600] |
| Monitor.InitialEffect | firmware/power-management-monitor.c:929-954 | initGlobals starts a battery in good health, isolated, with counters cleared, and with SoC equal to the OCV SoC and consistent with its charge |
| Monitor.Offsets | firmware/power-management-monitor.c:176-192 | each interface's offset is the minimum of its own column of results |
| Monitor.CorrectedColumns | firmware/power-management-monitor.c:194-197 | each interface's column has its own offset removed |
| Monitor.Schedule | firmware/power-management-monitor.c:141-149 | the switch settings of every test, in test order |
| Monitor.CalibrationOutcome | firmware/power-management-monitor.c:141-243 | after a calibration, a battery is Missing exactly when it was Missing or an indicator showed it off, then with SoC 0. A present battery has the OCV SoC, is isolated and has cleared counters |
| Monitor.Released | firmware/power-management-monitor.c:333-342 | a target is released exactly when it names a Missing battery |
| Monitor.BubbleSort | firmware/power-management-monitor.c:403-429 | the in-place bubble sort leaves the list as Sort over n-1 passes, whose properties Ranking proves |
| Monitor.BubblePass | firmware/power-management-monitor.c:405-414 | one inner loop leaves the list as one Pass |
| Monitor.FirstFromHighest | firmware/power-management-monitor.c:712-766 | a scan from the highest-ranked battery returns the first battery passing the test, or 0 |
| Monitor.FirstFromLowest | firmware/power-management-monitor.c:584-677 | a scan from the lowest-ranked battery returns the first battery passing the test, or 0 |
| Monitor.MonitorEngine.constructor | firmware/power-management-monitor.c:88-97 | the zero-initialised static state |
| Monitor.MonitorEngine.SetBatterySoC | firmware/power-management-monitor.c:1104-1110 | battery i becomes SetSoC of itself; its SoC is the requested one and consistent with its charge |
| Monitor.MonitorEngine.ResetBatterySoC | firmware/power-management-monitor.c:1088-1092 | battery i becomes ResetSoC of itself, the others unchanged |
| Monitor.MonitorEngine.SetBatteryMissing | firmware/power-management-monitor.c:1129-1133 | battery i becomes SetMissing of itself, the others unchanged |
| Monitor.MonitorEngine.StartCalibration | firmware/power-management-monitor.c:1117-1120 | the calibration request is set, and nothing else changes |
| Monitor.MonitorEngine.InitGlobals | firmware/power-management-monitor.c:929-954 | every battery is Initial of itself with its OCV SoC, both targets are 0, calibration is off, and the offsets are loaded from the configuration record |
| Monitor.MonitorEngine.InitBatteries | firmware/power-management-monitor.c:932-943 | the battery loop of initGlobals |
| Monitor.MonitorEngine.LoadOffsets | firmware/power-management-monitor.c:953 | the offsets equal the configuration record's |
| Monitor.MonitorEngine.TestSettings | firmware/power-management-monitor.c:144-149 | the settings of one test are those of the schedule |
| Monitor.MonitorEngine.MarkMissing | firmware/power-management-monitor.c:159-166 | the batteries after one test's indicator check are MarkTest of those before |
| Monitor.MonitorEngine.RunTests | firmware/power-management-monitor.c:141-172 | the test loop leaves the batteries as MarkAll of the indicator readings and the results table equal to the samples, and follows the schedule |
| Monitor.MonitorEngine.RecordTest | firmware/power-management-monitor.c:169 | one row of results is recorded, and the other rows are unchanged |
| Monitor.MonitorEngine.MinimumOffset | firmware/power-management-monitor.c:176-192 | the loop returns Offset of the interface's samples |
| Monitor.MonitorEngine.ComputeOffsets | firmware/power-management-monitor.c:174-198 | the offsets are each interface's minimum, and the results table holds the corrected columns |
| Monitor.MonitorEngine.RemoveOffset | firmware/power-management-monitor.c:194-197 | one interface's column holds its corrected samples, and every other column is unchanged |
| Monitor.MonitorEngine.QuiescentCurrent | firmware/power-management-monitor.c:201-217 | the loop returns Quiescent of the corrected battery columns over the batteries not Missing |
| Monitor.MonitorEngine.FinaliseBatteries | firmware/power-management-monitor.c:226-237 | every battery becomes Finalise of itself with its OCV SoC |
| Monitor.MonitorEngine.ZeroOffsets | firmware/power-management-monitor.c:138 | all six offsets are 0 |
| Monitor.MonitorEngine.SaveOffsets | firmware/power-management-monitor.c:240-241 | the record's offsets become the engine's, the marker is set, and the block is written to flash |
| Monitor.MonitorEngine.Calibrate | firmware/power-management-monitor.c:128-244 | the batteries end as CalibrationOutcome describes, with offsets per interface. The quiescent current is the maximum over the present batteries, both targets are cleared, the request is withdrawn, and the offsets are saved with the marker |
| Monitor.MonitorEngine.DropMissing | firmware/power-management-monitor.c:333-342 | Missing batteries get SoC 0 and present ones are unchanged (`DropAll`). Each target naming a Missing battery is released, and both targets are then absent or present |
| Monitor.MonitorEngine.DropOne | firmware/power-management-monitor.c:335-341 | the missing check of battery i |
| Monitor.MonitorEngine.CountBatteries | firmware/power-management-monitor.c:344-349 | numBats is the number of batteries not Missing |
| Monitor.MonitorEngine.CoulombCount | firmware/power-management-monitor.c:354-394 | every present battery becomes CoulombUpdate of itself with the configured thresholds, and Missing ones are unchanged (`CountAll`). Which batteries are Missing does not change, and present targets stay present |
| Monitor.MonitorEngine.CoulombOne | firmware/power-management-monitor.c:356-392 | battery i becomes CoulombUpdate of itself and stays present |
| Monitor.MonitorEngine.RankBatteries | firmware/power-management-monitor.c:398-429 | the ranked list is Rank of the SoCs and missing flags, hence a ranking for the present count |
| Monitor.MonitorEngine.LongestIsolated | firmware/power-management-monitor.c:432-449 | the result is LongestScan over positions below numBats, as written |
| Monitor.MonitorEngine.RestartBulk | firmware/power-management-monitor.c:478-485 | the phases become FloatToBulk of the readings |
| Monitor.MonitorEngine.PreliminaryDecisions | firmware/power-management-monitor.c:470-539 | the decision fields become Preliminary of the old ones |
| Monitor.MonitorEngine.ReleaseFinished | firmware/power-management-monitor.c:490-500 | a charge target in float or rest is released, and nothing else changes |
| Monitor.MonitorEngine.SwitchCharger | firmware/power-management-monitor.c:504-539 | the decision fields become ChargerSwitch of the old ones |
| Monitor.MonitorEngine.OneBattery | firmware/power-management-monitor.c:546-561 | the decision fields become SingleBattery of the old ones |
| Monitor.MonitorEngine.AllocateCharger | firmware/power-management-monitor.c:584-678 | the decision fields become ChargerRules of the old ones |
| Monitor.MonitorEngine.UrgentChargerStep | firmware/power-management-monitor.c:590-611 | the decision fields become UrgentCharger of the old ones |
| Monitor.MonitorEngine.SpareChargerStep | firmware/power-management-monitor.c:615-654 | the decision fields become SpareCharger of the old ones |
| Monitor.MonitorEngine.LowerChargerStep | firmware/power-management-monitor.c:658-677 | the decision fields become LowerCharger of the old ones |
| Monitor.MonitorEngine.AllocateLoads | firmware/power-management-monitor.c:690-766 | the decision fields become LoadSelection of the old ones |
| Monitor.MonitorEngine.ReleaseLoadStep | firmware/power-management-monitor.c:690-705 | the decision fields become ReleaseLoad of the old ones |
| Monitor.MonitorEngine.ChooseLoadStep | firmware/power-management-monitor.c:712-766 | the decision fields become ChooseLoad of the old ones |
| Monitor.MonitorEngine.SpareLoadStep | firmware/power-management-monitor.c:712-729 | the decision fields become SpareLoad of the old ones |
| Monitor.MonitorEngine.FallbackLoadStep | firmware/power-management-monitor.c:733-766 | the decision fields become FallbackLoad of the old ones |
| Monitor.MonitorEngine.RescanLoad | firmware/power-management-monitor.c:771-789 | the decision fields become Rescan of the old ones |
| Monitor.MonitorEngine.OverrideLoad | firmware/power-management-monitor.c:794-800 | the decision fields become Override of the old ones |
| Monitor.MonitorEngine.Allocate | firmware/power-management-monitor.c:467-800 | the decision fields become Decide of the old ones, so LoadNeverWeak, ChargerOffRule and the other Decide lemmas hold of the engine |
| Monitor.MonitorEngine.AllocateTargets | firmware/power-management-monitor.c:467-800 | the decision fields become Decide of the old ones. Both targets are then absent or present, and the load is never on a weak battery |
| Monitor.MonitorEngine.UpdateStates | firmware/power-management-monitor.c:809-847 | the batteries become UpdateAll of the old ones; a present battery is Charging or Loaded exactly as the targets say |
| Monitor.MonitorEngine.UpdateOne | firmware/power-management-monitor.c:811-846 | battery i becomes UpdateState of itself |
| Monitor.MonitorEngine.ResyncAll | firmware/power-management-monitor.c:885-912 | every battery becomes Resync of itself, with the hour computed from the monitor period |
| Monitor.MonitorEngine.ResyncOne | firmware/power-management-monitor.c:888-910 | battery i becomes Resync of itself; health and fill are kept |
| Monitor.MonitorEngine.PrepareCycle | firmware/power-management-monitor.c:333-449 | the batteries become CountAll of DropAll of the old ones, and the targets are the old ones with Missing batteries released. The missing flags are unchanged. The ranked list is Rank of the new SoCs and missing flags, a ranking with the present count. The longest-isolated battery is the scan's |
| Monitor.MonitorEngine.CountAndCoulomb | firmware/power-management-monitor.c:333-394 | the batteries become CountAll of DropAll of the old ones, and the targets are the old ones with Missing batteries released. The missing flags are unchanged, and numBats counts the present batteries |
| Monitor.MonitorEngine.FinishCycle | firmware/power-management-monitor.c:809-912 | the batteries become ResyncEvery of UpdateAll of the old ones, with the OCV SoCs. Health and fill are untouched, and a present battery is Charging or Loaded exactly as the targets say. The switch plan is SwitchDecision of the targets |
| Monitor.MonitorEngine.DecideAndFinish | firmware/power-management-monitor.c:467-912 | the decision fields become Decide of the old ones. The batteries become ResyncEvery of UpdateAll of the old ones under the new targets. The load is never on a weak battery, and the switch plan follows the targets |
| Monitor.MonitorEngine.Cycle | firmware/power-management-monitor.c:333-912 | the counted batteries are CountAll of DropAll of the old ones. The ranking is Rank of them. The decision fields are Decide of the counted batteries, the readings and the old targets with Missing batteries released. The final batteries are ResyncEvery of UpdateAll of the counted ones. No battery has come or gone, both targets are absent or present, and the load is never on a weak battery. The switch plan follows the targets |
| ObjDic.ChargeParameters | firmware/power-management-objdic.c:131-150 | setBatteryChargeParameters keeps the record's array sizes; the effect is in ChargeParametersEffect |
| ObjDic.ChargeParametersEffect | firmware/power-management-objdic.c:131-150 | absorption/float voltages become 3686/3379 (wet), 3738/3482 (AGM) or 3584/3532 (gel), and other types keep theirs. The scales become 50 and 5; other batteries and every other field are unchanged |
| ObjDic.ChargeParametersUpTo | firmware/power-management-objdic.c:79 | setting the parameters of batteries 0..n-1 keeps the record's array sizes |
| ObjDic.ChargeParametersUpToEffect | firmware/power-management-objdic.c:79 | after batteries 0..n-1 are set, each of them has its type's voltages and the default scales, and later batteries and other fields are unchanged |
| ObjDic.DefaultsInstalled | firmware/power-management-objdic.c:61-101 | over a block without the marker, start-up installs the defaults: automatic tracking off, monitor strategy 0xFF, charger strategy 0, panel switch setting 0, measurement sending on, debug messages, sending and recording off, every current offset 0, the default thresholds, floatBulkSoC and monitor delay, each battery's default type and its charge parameters. The marker is left as it was |
| ObjDic.StoredBlockKept | firmware/power-management-objdic.c:61 | a block with the marker 0xD5 is used unchanged |
| ObjDic.WrittenBlockRestored | firmware/power-management-objdic.c:57-121 | a record written by writeConfigBlock is used unchanged at the next start-up |
| ObjDic.Controls | firmware/power-management-objdic.c:421-429 | bit 0 is set exactly when autoTrack, bit 1 when recording, bit 3 when measurementSend, bit 4 when debugMessageSend; every other bit is 0 |
| ObjDic.TruncDiv | firmware/power-management-objdic.c:185-186 | C division: the magnitude is the quotient of the magnitudes, and a non-zero result is negative exactly when the signs differ |
| ObjDic.CurrentLimitIsQuotient | firmware/power-management-objdic.c:183-200 | for a positive scale and a quotient that fits int16, the limit q satisfies q·scale ≤ capacity·256 < (q+1)·scale |
| ObjDic.BulkLimitIsQuotient | firmware/power-management-objdic.c:183-187 | for a positive bulk scale and a quotient that fits int16, getBulkCurrentLimit's result q satisfies q·scale ≤ capacity·256 < (q+1)·scale |
| ObjDic.FloatLimitIsQuotient | firmware/power-management-objdic.c:196-200 | for a positive float scale and a quotient that fits int16, getFloatStageCurrent's result q satisfies q·scale ≤ capacity·256 < (q+1)·scale |
| ObjDic.BulkLimitWrapsFrom640Ah | firmware/power-management-objdic.c:183-187 | with the default scale of 5, 639 Ah gives 32716 and 640 Ah wraps to -32768 |
| ObjDic.ObjectDictionary.constructor | firmware/power-management-objdic.c:45-46 | the working record and the flash block start as the stored block |
| ObjDic.ObjectDictionary.SetCurrentOffset | firmware/power-management-objdic.c:265-280 | afterwards getCurrentOffset(i) is the new offset, every other interface reads as before, and nothing else changes |
| ObjDic.ObjectDictionary.SetBatteryChargeParameters | firmware/power-management-objdic.c:131-150 | the record becomes ChargeParameters of the old one |
| ObjDic.ObjectDictionary.WriteConfigBlock | firmware/power-management-objdic.c:116-120 | the marker is set to 0xD5 and the record is copied to flash |
| ObjDic.ObjectDictionary.SetAllChargeParameters | firmware/power-management-objdic.c:79 | the record becomes ChargeParametersUpTo of the old one over all batteries |
| ObjDic.ObjectDictionary.ZeroAllOffsets | firmware/power-management-objdic.c:80 | every current offset becomes 0 |
| ObjDic.ObjectDictionary.SetGlobalDefaults | firmware/power-management-objdic.c:57-101 | the record becomes the flash block when it carries the marker, and the defaults otherwise; the flash block is unchanged |
| Comms.BatteryOperand | firmware/power-management-comms.c:331 | the battery digit minus '1' as a uint8 |
| Comms.ParseAction | firmware/power-management-comms.c:183-248 | the action commands keep the record's array sizes; their effects are stated by SwitchCommand and UnknownCommandIgnored |
| Comms.ParseBattery | firmware/power-management-comms.c:392-464 | the battery commands keep the record's array sizes |
| Comms.BatterySetting | firmware/power-management-comms.c:421-464 | the per-battery settings keep the record's array sizes |
| Comms.ParseFlag | firmware/power-management-comms.c:337-389 | the flag commands keep the record's array sizes |
| Comms.ParseSetting | firmware/power-management-comms.c:468-548 | the strategy and threshold commands keep the array sizes and request nothing outside the record |
| Comms.ParseShaped | firmware/power-management-comms.c:183-550 | every `a` or `p` command keeps the record's array sizes |
| Comms.UnknownCommandIgnored | firmware/power-management-comms.c:173-550 | a line outside the two categories, or with an unknown command letter, changes nothing and requests nothing |
| Comms.MonitorStrategyCommand | firmware/power-management-comms.c:468-473 | `ps<d>` sets the monitor strategy to d-'0' exactly when that is 0..3, and otherwise changes nothing |
| Comms.ChargerStrategyCommand | firmware/power-management-comms.c:507-512 | `pS<d>` sets the charger strategy to d-'0' exactly when that is 0 or 1, and otherwise changes nothing |
| Comms.TypeCommand | firmware/power-management-comms.c:395-409 | `pT<n><t><c>` sets battery n's type, capacity and charge parameters exactly when n is 1..3 and t is 0..2, and otherwise changes nothing |
| Comms.FlagCommands | firmware/power-management-comms.c:337-389 | a flag command without '+' or '-' changes nothing. `pa` touches only automatic tracking, setting it on '+' and clearing it on '-'. `pr` touches only recording, and after `pr+` recording is on exactly when it already was or a file is open for writing |
| Comms.SwitchCommand | firmware/power-management-comms.c:193-199 | `aS<n><m>` requests the switch exactly when n and m-1 are both below 4 as uint8, and records n as the panel setting whenever m-1 is 2, and otherwise leaves the record unchanged |
| Comms.BatteryCommandRange | firmware/power-management-comms.c:395-464 | a battery command with a number outside 1..3 changes nothing and requests nothing |
| Comms.CommandLineOf | firmware/power-management-comms.c:108 | a text padded to an 80-byte line |
| Comms.UncheckedBatteryNumbers | firmware/power-management-comms.c:240-419 | as written, "pm9+" asks for battery[8] and "aB0" for battery[255]; with the range check neither requests anything |
| Comms.CheckedBatteryNumbers | firmware/power-management-comms.c:240-419 | with the range check, every battery a missing or resync request names is one of the three; for numbers 1..3 the checked and the written `pm` agree |
| Comms.DigitValue | firmware/power-management-comms.c:1227 | the value of a hexadecimal digit, whose digit character is that digit |
| Comms.DigitRoundTrip | firmware/power-management-comms.c:1227 | a nibble's digit reads back as the nibble |
| Comms.Hex | firmware/power-management-comms.c:1225-1235 | n upper-case hexadecimal digits |
| Comms.HexValue | firmware/power-management-comms.c:1225-1235 | the number a digit string stands for is below 16^n |
| Comms.HexRoundTrip | firmware/power-management-comms.c:1225-1235 | the printed digits read back as the value modulo 16^n |
| Comms.HexDigitsRoundTrip | firmware/power-management-comms.c:1225-1235 | a digit string is printed back as itself from its value |
| Comms.PrintedIsLow16Bits | firmware/power-management-comms.c:1225-1235 | four digits are printed, standing for value & 0xFFFF |
| Comms.HexLast | firmware/power-management-comms.c:1227-1228 | the last digit is the low nibble, and the others are the digits of value >> 4 |
| Comms.PrintHex | firmware/power-management-comms.c:1220-1237 | commsPrintHex prints Hex(value, 4), most significant digit first, when the queue has room for five characters, and nothing otherwise |
| Comms.CommandLine.constructor | firmware/power-management-comms.c:108-109 | an empty line at position 0 |
| Comms.CommandLine.Receive | firmware/power-management-comms.c:121-130 | the position stays within 0..79. CR, LF, or a character arriving at position 79 ends the line: the terminator is written after the held characters, the character itself is dropped, and the position returns to 0. The line is then parsed, the record takes the result, and the block is written for `aW`. Any other character is appended |

## Findings

| source | as written | input that shows it | evidently intended | confidence | as-written member | corrected member |
|---|---|---|---|---|---|---|
| firmware/power-management-monitor.c:369-374 | the low thresholds are checked before the critical ones, so a battery below both is Low | SoC 10% with low 50% and critical 30%: reported Low | Critical below a critical threshold, else Low below a low threshold | high, not executed | BatteryState.CriticalBatteryReportedLow | BatteryState.ClassifyFill |
| firmware/power-management-monitor.c:480-483 | rule 1 indexes records and phases with the 1-based battery number | first battery in float below floatBulkSoC: stays in float | the record and phase of battery id-1 | high, not executed | Allocation.FirstBatteryStaysInFloat | Allocation.FloatToBulkEffect |
| firmware/power-management-monitor.c:509-511 | the charger-on test reads the voltage and health at the 1-based position | only battery 1 present, at 12.5 V with the panel at 14 V: charger turned off | test battery id-1 | high, not executed | Allocation.LoneFirstBatteryChargerOff | Allocation.PreliminaryTargets |
| firmware/power-management-monitor.c:523-533 | the all-in-float test reads the health and phase at the 1-based position | all three present, battery 1 in bulk, 2 and 3 in float, the position past the arrays missing or in float: charger turned off | test battery id-1 | high, not executed | Allocation.BulkFirstBatteryChargerOff | Allocation.PreliminaryTargets |
| firmware/power-management-monitor.c:556 | the single-battery weak test reads battery[index] | only battery 1 present and weak: it keeps the loads | test battery[index-1] | high, not executed | Allocation.LoneWeakBatteryKeepsLoads | Allocation.SingleBatteryTargets |
| firmware/power-management-monitor.c:780 | with no charge target the rescan compares against battery[-1] | three low batteries, no charge target, load on battery 2: whether the load moves depends on the value before the array | no battery counts as better when there is no charge target | medium, not executed | Allocation.StrayReadMovesLoad | Allocation.RescanAgreesWithCharge |
| firmware/power-management-comms.c:413-419 | `pm` (and `aB` at lines 240-246) use the battery number without the range check the other battery commands make | "pm9+" marks battery[8]; "aB0" resynchronises battery[255] | ignore battery numbers outside 1..3 | high, not executed | Comms.UncheckedBatteryNumbers | Comms.CheckedBatteryNumbers |

The engine uses the corrected definitions throughout. The as-written
definitions are `ClassifyFillAsWritten`, `FloatToBulkAsWritten`,
`ChargerOffAsWritten`, `AllInFloatAsWritten`, `SingleBatteryAsWritten`, `LoadRescanAsWritten`,
`MissingCommandAsWritten` and `SocCommandAsWritten`. Each reads what lies at
the out-of-range position as a parameter.

## Left out

- FreeRTOS tasks, queues, delays, timers and the monitor watchdog: scheduling and concurrency. Each cycle is a sequence of method calls on one engine.
- The hardware is not modelled. `setSwitch`, `getIndicators`, `getCurrent`, the voltage, temperature and accumulated-charge readings, and the charging phase are parameters: a snapshot per cycle or per calibration test. The switch plan of automatic tracking is returned from `Cycle` rather than applied. It is always computed, while the firmware applies it only when `autoTrack` is set.
- Calibration saves the switch bits before the tests and restores them afterwards (lines 131 and 220). This is not modelled, because the switches are hardware. The calibration delay and the progress messages are left out for the same reason.
- Reporting and recording of measurements (monitor lines 252-325) and all send and print transport functions except the digit logic of `commsPrintHex`: I/O.
- File commands, data requests and the `d` and `f` categories of `parseCommand`. `Parse` leaves the record unchanged for them.
- `asciiToInt` is a parameter `toInt`, and its value is stored as given; any width conversion of the stored field is part of that parameter. `setTimeFromString`, the ident message and the over-current reset become `Effect` values. The `aB` and `pm` requests are `Effect` values that the engine's `SetBatterySoC` and `SetBatteryMissing` carry out.
- `flashReadData`/`flashWriteData` are the `flashBlock` field of `ObjectDictionary`; the driver's result code is not modelled.
- The fields `lastCurrent` and `lastVoltage` of the battery record are never written by the monitor and are not modelled. The trivial getters and `setBatteryUnderLoad` are not modelled either.
- Monitor.MonitorEngine.UpdateStates, ResyncAll, FinishCycle and the resync functions require a monitor delay above 0. The firmware divides by it at monitor.c lines 830 and 885 without a guard. The value comes only from the defaults or the flash block, so the firmware meets this requirement, but a zero delay is not modelled.
- Monitor.MonitorEngine.Cycle and the other engine methods require every configured capacity to be 1..2330 Ah. A capacity of 0 divides by zero at line 364. Above 2330 Ah, capacity·3600·256 overflows the int arithmetic at line 361.
- Preliminary: its own contract states only the load and the phase count; what it decides is stated by PreliminaryTargets and ChargerOffRule.
- ChargerSwitch: its own contract states only what it keeps; the charger switch it decides is stated by PreliminaryTargets.
- UrgentCharger: its own contract states only what it keeps; the target it chooses is stated by UrgentChoice.
- SpareCharger: its own contract states only what it keeps; the target it chooses is stated by SpareChoice.
- LowerCharger: its own contract states only what it keeps; the target it chooses is stated by LowerChoice.
- ChargerRules: its own contract states only what it keeps; its choice is stated rule by rule by UrgentChoice, SpareChoice and LowerChoice, and when it leaves no target by ChargerRulesChoice.
- SpareLoad: its own contract states only what it keeps; the load it chooses is stated by SpareLoadChoice.
- FallbackLoad: its own contract states only what it keeps; the load it chooses is stated by FallbackChoice.
- ChooseLoad: its own contract states only what it keeps; its choice is stated rule by rule by SpareLoadChoice and FallbackChoice.
- LoadSelection: its own contract states only what it keeps; its choice is stated by ReleaseLoad, SpareLoadChoice and FallbackChoice, and when it leaves no load by LoadSelectionChoice.
- Rescan: its own contract states only what it keeps; the load it chooses is stated by RescanChoice.
- LoadRescan: its own contract states only what it keeps; its choice is stated by RescanChoice and Override.
- SeveralBatteries: its own contract states only what it keeps; its choice is stated rule by rule by the choice lemmas above, with SeveralTargets and SeparateLoadShares over the whole chain.
- Decide: its own contract states only the phase count; its decisions are stated by ChargerOffRule, SingleBatteryTargets, LoadNeverWeak and the lemmas of the rules it chains.
