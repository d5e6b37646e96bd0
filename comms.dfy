/**
 * The command side of the communications task: assembly of received
 * characters into a command line, the action (`a`) and parameter-setting
 * (`p`) commands as a transformer on the configuration record, and the
 * four-digit hexadecimal form used by commsPrintHex.
 *
 * Characters are the bytes of the uint8_t line buffer. asciiToInt is not
 * part of this model: it is a parameter `toInt` applied to the rest of the
 * line, and its value is what is stored (any conversion to the width of the
 * field included). Requests that leave the configuration record (switches,
 * timers, flash, the monitor's battery records, messages) are returned as an
 * Effect.
 */
module Comms {
  import opened Types
  import opened ObjDic
  import opened Arith

  /** Size of the line buffer. */
  const LINE_LENGTH: nat := 80
  const CR: int := 0x0D
  const LF: int := 0x0A
  /** The file handle value meaning "no file open". */
  const NO_FILE: int := 0xFF

  /** A request a command makes outside the configuration record. */
  datatype Effect =
    | NoEffect
    | SetSwitch(battery: int, setting: int)
    | ResetInterface(intf: int)
    | WriteFlash
    | SendIdent
    | SocFromVoltage(battery: int)
    | StartCalibration
    | SetTime(text: seq<int>)
    | SetMissing(battery: int, missing: bool)

  function Code(c: char): int
  {
    c as int
  }

  predicate IsLine(line: seq<int>)
  {
    |line| == LINE_LENGTH && forall k | 0 <= k < |line| :: IsU8(line[k])
  }

  /** The 1-based battery digit of a parameter command as the uint8_t array index it becomes. */
  function BatteryOperand(line: seq<int>): (b: int)
    requires IsLine(line)
    ensures IsU8(b)
  {
    ToU8(line[2] - Code('1'))
  }

  /** A `-`/`+` flag: '-' clears, '+' sets, anything else keeps the old value. */
  function Flag(sign: int, current: bool): bool
  {
    if sign == Code('-') then false else if sign == Code('+') then true else current
  }

  // ---------------------------------------------------------------------
  // Action commands (lines 183-247)

  function ParseAction(line: seq<int>, c: Config): (r: (Config, Effect))
    requires IsLine(line) && Shaped(c)
    ensures Shaped(r.0)
  {
    var cmd := line[1];
    if cmd == Code('S') then
      var battery := ToU8(line[2] - Code('0'));
      var setting := ToU8(line[3] - Code('0') - 1);
      var e := if battery < 4 && setting < 4 then SetSwitch(battery, setting) else NoEffect;
      (if setting == 2 then c.(panelSwitchSetting := battery) else c, e)
    else if cmd == Code('R') then
      var intf := ToU32(line[2] - Code('0'));
      (c, if intf > NUM_IFS - 1 then NoEffect else ResetInterface(intf))
    else if cmd == Code('W') then (c, WriteFlash)
    else if cmd == Code('E') then (c, SendIdent)
    else if cmd == Code('B') then
      var battery := BatteryOperand(line);
      (c, if battery < NUM_BATS then SocFromVoltage(battery) else NoEffect)
    else (c, NoEffect)
  }

  // ---------------------------------------------------------------------
  // Parameter commands (lines 329-550)

  /** The per-battery parameter commands T, I, A, f, F and z, and the missing command m. */
  function ParseBattery(line: seq<int>, c: Config, currents: seq<int>, toInt: seq<int> -> int): (r: (Config, Effect))
    requires IsLine(line) && Shaped(c) && |currents| == NUM_IFS
    ensures Shaped(r.0)
  {
    var cmd := line[1];
    var battery := BatteryOperand(line);
    if cmd == Code('T') then
      var t := ToU8(line[3] - Code('0'));
      if battery < NUM_BATS && t < 3 then
        (ChargeParameters(c.(batteryType := c.batteryType[battery := t],
                             batteryCapacity := c.batteryCapacity[battery := toInt(line[4..])]), battery),
         NoEffect)
      else (c, NoEffect)
    else if cmd == Code('m') then (c, MissingCommand(line))
    else if battery >= NUM_BATS then (c, NoEffect)
    else (BatterySetting(cmd, battery, line, c, currents, toInt), NoEffect)
  }

  /** The commands I, A, f, F and z for a battery number already checked. */
  function BatterySetting(cmd: int, battery: int, line: seq<int>, c: Config, currents: seq<int>,
                          toInt: seq<int> -> int): (r: Config)
    requires IsLine(line) && Shaped(c) && |currents| == NUM_IFS && 0 <= battery < NUM_BATS
    ensures Shaped(r)
  {
    var value := toInt(line[3..]);
    if cmd == Code('I') then c.(bulkCurrentLimitScale := c.bulkCurrentLimitScale[battery := value])
    else if cmd == Code('A') then c.(absorptionVoltage := c.absorptionVoltage[battery := value])
    else if cmd == Code('f') then c.(floatStageCurrentScale := c.floatStageCurrentScale[battery := value])
    else if cmd == Code('F') then c.(floatVoltage := c.floatVoltage[battery := value])
    else if cmd == Code('z') then c.(currentOffsets := c.currentOffsets[battery := currents[battery]])
    else c
  }

  /** The `m` command with the battery number checked like the other battery commands. */
  function MissingCommand(line: seq<int>): (e: Effect)
    requires IsLine(line)
  {
    var battery := BatteryOperand(line);
    if battery >= NUM_BATS then NoEffect
    else if line[3] == Code('-') then SetMissing(battery, false)
    else if line[3] == Code('+') then SetMissing(battery, true)
    else NoEffect
  }

  /** The switch commands a, c, d, M and r, and the requests C and H. */
  function ParseFlag(line: seq<int>, c: Config, writeFileHandle: int): (r: (Config, Effect))
    requires IsLine(line) && Shaped(c)
    ensures Shaped(r.0)
  {
    var cmd := line[1];
    var sign := line[2];
    if cmd == Code('a') then (c.(autoTrack := Flag(sign, c.autoTrack)), NoEffect)
    else if cmd == Code('c') then (c.(enableSend := Flag(sign, c.enableSend)), NoEffect)
    else if cmd == Code('C') then (c, StartCalibration)
    else if cmd == Code('d') then (c.(debugMessageSend := Flag(sign, c.debugMessageSend)), NoEffect)
    else if cmd == Code('H') then (c, SetTime(line[2..]))
    else if cmd == Code('M') then (c.(measurementSend := Flag(sign, c.measurementSend)), NoEffect)
    else if cmd == Code('r') then
      (c.(recording := if sign == Code('-') then false
                       else if sign == Code('+') && writeFileHandle < NO_FILE then true
                       else c.recording), NoEffect)
    else (c, NoEffect)
  }

  /** The strategy commands s and S, and the thresholds and times v, V, x, X, R, G, D, e and B. */
  function ParseSetting(line: seq<int>, c: Config, toInt: seq<int> -> int): (r: (Config, Effect))
    requires IsLine(line) && Shaped(c)
    ensures Shaped(r.0) && r.1 == NoEffect
  {
    var cmd := line[1];
    if cmd == Code('s') then
      var strategy := ToU8(line[2] - Code('0'));
      (if strategy <= 3 then c.(monitorStrategy := strategy) else c, NoEffect)
    else if cmd == Code('S') then
      var strategy := ToU8(line[2] - Code('0'));
      (if strategy < 2 then c.(chargerStrategy := strategy) else c, NoEffect)
    else
      var x := toInt(line[2..]);
      if cmd == Code('v') then (c.(lowVoltage := x), NoEffect)
      else if cmd == Code('V') then (c.(criticalVoltage := x), NoEffect)
      else if cmd == Code('x') then (c.(lowSoC := x), NoEffect)
      else if cmd == Code('X') then (c.(criticalSoC := x), NoEffect)
      else if cmd == Code('R') then (c.(restTime := x), NoEffect)
      else if cmd == Code('G') then (c.(absorptionTime := x), NoEffect)
      else if cmd == Code('D') then (c.(minDutyCycle := x), NoEffect)
      else if cmd == Code('e') then (c.(floatTime := x), NoEffect)
      else if cmd == Code('B') then (c.(floatBulkSoC := x), NoEffect)
      else (c, NoEffect)
  }

  predicate FlagCommand(cmd: int)
  {
    cmd in {Code('a'), Code('c'), Code('C'), Code('d'), Code('H'), Code('M'), Code('r')}
  }

  predicate BatteryCommand(cmd: int)
  {
    cmd in {Code('T'), Code('m'), Code('I'), Code('A'), Code('f'), Code('F'), Code('z')}
  }

  /**
   * parseCommand restricted to the action and parameter categories: the new
   * configuration record and the request made outside it. Every other
   * category leaves the record alone here.
   */
  function Parse(line: seq<int>, c: Config, writeFileHandle: int, currents: seq<int>, toInt: seq<int> -> int): (Config, Effect)
    requires IsLine(line) && Shaped(c) && |currents| == NUM_IFS
  {
    if line[0] == Code('a') then ParseAction(line, c)
    else if line[0] == Code('p') then
      if BatteryCommand(line[1]) then ParseBattery(line, c, currents, toInt)
      else if FlagCommand(line[1]) then ParseFlag(line, c, writeFileHandle)
      else ParseSetting(line, c, toInt)
    else (c, NoEffect)
  }

  // ---------------------------------------------------------------------
  // Properties of the commands

  /** Every command keeps the record's array sizes. */
  lemma ParseShaped(line: seq<int>, c: Config, writeFileHandle: int, currents: seq<int>, toInt: seq<int> -> int)
    requires IsLine(line) && Shaped(c) && |currents| == NUM_IFS
    ensures Shaped(Parse(line, c, writeFileHandle, currents, toInt).0)
  {
  }

  /** A line outside the two categories, or an unknown command letter, changes nothing and requests nothing. */
  lemma UnknownCommandIgnored(line: seq<int>, c: Config, writeFileHandle: int, currents: seq<int>, toInt: seq<int> -> int)
    requires IsLine(line) && Shaped(c) && |currents| == NUM_IFS
    requires line[0] != Code('a') || line[1] !in {Code('S'), Code('R'), Code('W'), Code('E'), Code('B')}
    requires line[0] != Code('p') || line[1] !in
      {Code('a'), Code('c'), Code('C'), Code('d'), Code('H'), Code('M'), Code('r'), Code('T'), Code('m'),
       Code('I'), Code('A'), Code('f'), Code('F'), Code('z'), Code('s'), Code('v'), Code('V'), Code('x'),
       Code('X'), Code('S'), Code('R'), Code('G'), Code('D'), Code('e'), Code('B')}
    ensures Parse(line, c, writeFileHandle, currents, toInt) == (c, NoEffect)
  {
  }

  /**
   * `ps<d>` sets the monitor strategy to d-'0' exactly when that is at most
   * 3 as a uint8_t, and otherwise leaves the record as it was.
   */
  lemma MonitorStrategyCommand(line: seq<int>, c: Config, writeFileHandle: int, currents: seq<int>, toInt: seq<int> -> int)
    requires IsLine(line) && Shaped(c) && |currents| == NUM_IFS
    requires line[0] == Code('p') && line[1] == Code('s')
    ensures var r := Parse(line, c, writeFileHandle, currents, toInt);
      && r.1 == NoEffect
      && (line[2] - Code('0') in {0, 1, 2, 3} ==> r.0 == c.(monitorStrategy := line[2] - Code('0')))
      && (line[2] - Code('0') !in {0, 1, 2, 3} ==> r.0 == c)
  {
    var d := line[2] - Code('0');
    assert ToU8(d) <= 3 <==> d in {0, 1, 2, 3};
  }

  /** `pS<d>` sets the charger strategy to d-'0' exactly when that is 0 or 1, otherwise nothing changes. */
  lemma ChargerStrategyCommand(line: seq<int>, c: Config, writeFileHandle: int, currents: seq<int>, toInt: seq<int> -> int)
    requires IsLine(line) && Shaped(c) && |currents| == NUM_IFS
    requires line[0] == Code('p') && line[1] == Code('S')
    ensures var r := Parse(line, c, writeFileHandle, currents, toInt);
      && r.1 == NoEffect
      && (line[2] - Code('0') in {0, 1} ==> r.0 == c.(chargerStrategy := line[2] - Code('0')))
      && (line[2] - Code('0') !in {0, 1} ==> r.0 == c)
  {
    var d := line[2] - Code('0');
    assert ToU8(d) < 2 <==> d in {0, 1};
  }

  /**
   * `pT<n><t><capacity>` changes the type, the capacity and the charge
   * parameters of battery n, and nothing else, exactly when n is 1..3 and t
   * is 0..2; otherwise it changes nothing.
   */
  lemma TypeCommand(line: seq<int>, c: Config, writeFileHandle: int, currents: seq<int>, toInt: seq<int> -> int)
    requires IsLine(line) && Shaped(c) && |currents| == NUM_IFS
    requires line[0] == Code('p') && line[1] == Code('T')
    ensures var r := Parse(line, c, writeFileHandle, currents, toInt);
      var b := line[2] - Code('1');
      var t := line[3] - Code('0');
      && r.1 == NoEffect
      && (0 <= b < NUM_BATS && 0 <= t < 3 ==>
            r.0 == ChargeParameters(c.(batteryType := c.batteryType[b := t],
                                       batteryCapacity := c.batteryCapacity[b := toInt(line[4..])]), b))
      && (!(0 <= b < NUM_BATS && 0 <= t < 3) ==> r.0 == c)
  {
    assert ToU8(line[2] - Code('1')) < NUM_BATS <==> 0 <= line[2] - Code('1') < NUM_BATS;
    assert ToU8(line[3] - Code('0')) < 3 <==> 0 <= line[3] - Code('0') < 3;
  }

  /**
   * The flag commands change their flag only on '+' or '-', and `pr+`
   * starts recording only while a file is open for writing.
   */
  lemma FlagCommands(line: seq<int>, c: Config, writeFileHandle: int, currents: seq<int>, toInt: seq<int> -> int)
    requires IsLine(line) && Shaped(c) && |currents| == NUM_IFS
    requires line[0] == Code('p') && line[1] in {Code('a'), Code('c'), Code('d'), Code('M'), Code('r')}
    ensures var r := Parse(line, c, writeFileHandle, currents, toInt);
      && r.1 == NoEffect
      && (line[2] != Code('+') && line[2] != Code('-') ==> r.0 == c)
      && (line[1] == Code('a') ==> r.0 == c.(autoTrack := r.0.autoTrack))
      && (line[1] == Code('r') ==> r.0 == c.(recording := r.0.recording))
      && (line[1] == Code('r') && line[2] == Code('+') ==> r.0.recording == (c.recording || writeFileHandle < NO_FILE))
      && (line[2] == Code('-') && line[1] != Code('d') ==>
            !r.0.autoTrack || !r.0.enableSend || !r.0.measurementSend || !r.0.recording)
      && (line[2] == Code('+') && line[1] == Code('a') ==> r.0.autoTrack)
      && (line[2] == Code('-') && line[1] == Code('a') ==> !r.0.autoTrack)
  {
  }

  /**
   * `aS<n><m>` asks for battery n on line m-1 only when both are below 4 as
   * uint8_t, but records n as the panel setting whenever m-1 is 2, even
   * when n is out of range.
   */
  lemma SwitchCommand(line: seq<int>, c: Config, writeFileHandle: int, currents: seq<int>, toInt: seq<int> -> int)
    requires IsLine(line) && Shaped(c) && |currents| == NUM_IFS
    requires line[0] == Code('a') && line[1] == Code('S')
    ensures var r := Parse(line, c, writeFileHandle, currents, toInt);
      var n := line[2] - Code('0');
      var m := line[3] - Code('0') - 1;
      && (r.1 != NoEffect <==> 0 <= n < 4 && 0 <= m < 4)
      && (r.1 != NoEffect ==> r.1 == SetSwitch(n, m))
      && (m == 2 ==> r.0 == c.(panelSwitchSetting := ToU8(n)))
      && (m != 2 ==> r.0 == c)
  {
    assert ToU8(line[2] - Code('0')) < 4 <==> 0 <= line[2] - Code('0') < 4;
    assert ToU8(line[3] - Code('0') - 1) < 4 <==> 0 <= line[3] - Code('0') - 1 < 4;
    assert ToU8(line[3] - Code('0') - 1) == 2 <==> line[3] - Code('0') - 1 == 2;
  }

  /** A battery command with a battery number outside 1..3 changes nothing and requests nothing. */
  lemma BatteryCommandRange(line: seq<int>, c: Config, writeFileHandle: int, currents: seq<int>, toInt: seq<int> -> int)
    requires IsLine(line) && Shaped(c) && |currents| == NUM_IFS
    requires line[0] == Code('p') && BatteryCommand(line[1])
    requires !(Code('1') <= line[2] <= Code('3'))
    ensures Parse(line, c, writeFileHandle, currents, toInt) == (c, NoEffect)
  {
    assert BatteryOperand(line) >= NUM_BATS;
  }

  // ---------------------------------------------------------------------
  // The battery number of `pm` and `aB` as written

  /** The `m` command as written (lines 413-419): the battery number is not range-checked. */
  function MissingCommandAsWritten(line: seq<int>): Effect
    requires IsLine(line)
  {
    var battery := BatteryOperand(line);
    if line[3] == Code('-') then SetMissing(battery, false)
    else if line[3] == Code('+') then SetMissing(battery, true)
    else NoEffect
  }

  /** The `B` action as written (lines 240-246): the battery number is not range-checked. */
  function SocCommandAsWritten(line: seq<int>): Effect
    requires IsLine(line)
  {
    SocFromVoltage(BatteryOperand(line))
  }

  /** "pm9+" and "aB0" as the first bytes of the line. */
  function CommandLineOf(text: seq<char>): (line: seq<int>)
    requires |text| <= LINE_LENGTH && forall k | 0 <= k < |text| :: (text[k] as int) < 256
    ensures IsLine(line)
  {
    seq(LINE_LENGTH, k requires 0 <= k < LINE_LENGTH => if k < |text| then text[k] as int else 0)
  }

  /**
   * As written, "pm9+" asks for battery[8] to be marked missing and "aB0"
   * asks for battery[255] to be resynchronised, both outside the three
   * batteries; with the range check neither requests anything.
   */
  lemma UncheckedBatteryNumbers()
    ensures MissingCommandAsWritten(CommandLineOf("pm9+")) == SetMissing(8, true)
    ensures SocCommandAsWritten(CommandLineOf("aB0")) == SocFromVoltage(255)
    ensures 8 >= NUM_BATS && 255 >= NUM_BATS
    ensures MissingCommand(CommandLineOf("pm9+")) == NoEffect
    ensures ParseAction(CommandLineOf("aB0"), DEFAULT_SHAPE).1 == NoEffect
  {
    var l1 := CommandLineOf("pm9+");
    assert l1[2] == '9' as int && l1[3] == '+' as int;
    var l2 := CommandLineOf("aB0");
    assert l2[1] == 'B' as int && l2[2] == '0' as int;
  }

  /** A record with the right array sizes, for the examples. */
  const DEFAULT_SHAPE: Config := Config(0, false, false, false, false, [0, 0, 0], [0, 0, 0], 0, 0, 0,
    [0, 0, 0], [0, 0, 0], [0, 0, 0], [0, 0, 0], [0, 0, 0, 0, 0, 0], false, 0, 0, 0, 0, 0, 0, 0, 0,
    0, 0, 0, 0, 0, 0, 0, 0, 0)

  /**
   * With the range check every battery the missing and resync requests name
   * is one of the three, and for battery numbers 1..3 the checked and the
   * written commands agree.
   */
  lemma CheckedBatteryNumbers(line: seq<int>, c: Config)
    requires IsLine(line) && Shaped(c)
    ensures MissingCommand(line).SetMissing? ==> MissingCommand(line).battery < NUM_BATS
    ensures line[0] == Code('a') && ParseAction(line, c).1.SocFromVoltage? ==> ParseAction(line, c).1.battery < NUM_BATS
    ensures Code('1') <= line[2] <= Code('3') ==> MissingCommand(line) == MissingCommandAsWritten(line)
  {
  }

  // ---------------------------------------------------------------------
  // Hexadecimal output

  const HEX_DIGITS: seq<char> := "0123456789ABCDEF"

  function HexDigit(n: int): char
    requires 0 <= n < 16
  {
    HEX_DIGITS[n]
  }

  predicate IsHexDigit(ch: char)
  {
    '0' <= ch <= '9' || 'A' <= ch <= 'F'
  }

  function DigitValue(ch: char): (n: int)
    requires IsHexDigit(ch)
    ensures 0 <= n < 16 && HexDigit(n) == ch
  {
    if ch <= '9' then ch as int - '0' as int else ch as int - 'A' as int + 10
  }

  lemma DigitRoundTrip(n: int)
    requires 0 <= n < 16
    ensures IsHexDigit(HexDigit(n)) && DigitValue(HexDigit(n)) == n
  {
  }

  function Pow16(n: nat): (p: nat)
    ensures p >= 1
  {
    if n == 0 then 1 else 16 * Pow16(n - 1)
  }

  /** The low n hexadecimal digits of a value, most significant first. */
  function Hex(value: nat, n: nat): (s: seq<char>)
    ensures |s| == n && forall k | 0 <= k < n :: IsHexDigit(s[k])
  {
    if n == 0 then [] else Hex(value / 16, n - 1) + [HexDigit(value % 16)]
  }

  predicate AllHex(s: seq<char>)
  {
    forall k | 0 <= k < |s| :: IsHexDigit(s[k])
  }

  /** The number a string of hexadecimal digits stands for. */
  function HexValue(s: seq<char>): (v: nat)
    requires AllHex(s)
    ensures v < Pow16(|s|)
  {
    if s == [] then 0 else HexValue(s[..|s| - 1]) * 16 + DigitValue(s[|s| - 1])
  }

  /** Quotient and remainder are determined by any decomposition a == b * q + r with 0 <= r < b. */
  lemma DivModUnique(a: int, b: int, q: int, r: int)
    requires b > 0 && a == b * q + r && 0 <= r < b
    ensures a / b == q && a % b == r
  {
    var x := a / b - q;
    assert x * b == r - a % b;
    if x * b >= 0 {
      ZeroMultiple(x, b);
    } else {
      ZeroMultiple(-x, b);
    }
  }

  /** Dropping the last digit of value % 16^(n+1) is taking value / 16 modulo 16^n. */
  lemma ModStep(value: nat, n: nat)
    ensures value % Pow16(n + 1) == (value / 16 % Pow16(n)) * 16 + value % 16
  {
    var q, r := value / 16, value % 16;
    var q2, r2 := q / Pow16(n), q % Pow16(n);
    assert value == 16 * q + r;
    assert q == Pow16(n) * q2 + r2;
    assert value == Pow16(n + 1) * q2 + (r2 * 16 + r) by {
      assert 16 * (Pow16(n) * q2) == (16 * Pow16(n)) * q2;
    }
    assert r2 * 16 + r < Pow16(n + 1) by {
      assert r2 * 16 <= (Pow16(n) - 1) * 16;
    }
    DivModUnique(value, Pow16(n + 1), q2, r2 * 16 + r);
  }

  /** Printed digits read back as the value modulo 16^n: the low 16 bits for n = 4. */
  lemma {:induction false} HexRoundTrip(value: nat, n: nat)
    ensures HexValue(Hex(value, n)) == value % Pow16(n)
  {
    if n > 0 {
      var s := Hex(value, n);
      assert s[..n - 1] == Hex(value / 16, n - 1);
      HexRoundTrip(value / 16, n - 1);
      DigitRoundTrip(value % 16);
      ModStep(value, n - 1);
    }
  }

  /** A string of hexadecimal digits is printed back as itself from the number it stands for. */
  lemma {:induction false} HexDigitsRoundTrip(s: seq<char>)
    requires AllHex(s)
    ensures Hex(HexValue(s), |s|) == s
  {
    if s != [] {
      var init, d := s[..|s| - 1], DigitValue(s[|s| - 1]);
      DivModUnique(HexValue(s), 16, HexValue(init), d);
      HexDigitsRoundTrip(init);
    }
  }

  /** commsPrintHex sends the low 16 bits as exactly four digits. */
  lemma PrintedIsLow16Bits(value: nat)
    ensures |Hex(value, 4)| == 4 && HexValue(Hex(value, 4)) == value % 0x1_0000
  {
    HexRoundTrip(value, 4);
  }

  /** The last of n+1 digits is the low nibble; the ones before it are the digits of the rest. */
  lemma HexLast(v: nat, n: nat)
    ensures Hex(v, n + 1)[..n] == Hex(v / 16, n) && Hex(v, n + 1)[n] == HexDigit(v % 16)
  {
    var s := Hex(v, n + 1);
    assert s == Hex(v / 16, n) + [HexDigit(v % 16)];
  }

  /**
   * commsPrintHex: four low nibbles are converted into a buffer, least
   * significant first, while the value is shifted right; the buffer is
   * printed backwards when the send queue has room for at least five
   * characters, and nothing is printed otherwise.
   */
  method PrintHex(value: int, spaces: int) returns (printed: seq<char>)
    requires IsU32(value) && spaces >= 0
    ensures printed == (if ToU16(spaces) >= 5 then Hex(value, 4) else [])
  {
    var buffer := new char[25];
    ghost var digits := Hex(value, 4);
    var v := value;
    var i := 0;
    while i < 4
      invariant 0 <= i <= 4 && v >= 0
      invariant Hex(v, 4 - i) == digits[..4 - i]
      invariant forall k | 0 <= k < i :: buffer[k] == digits[3 - k]
    {
      HexLast(v, 3 - i);
      assert digits[..4 - i][..3 - i] == digits[..3 - i];
      assert digits[3 - i] == HexDigit(v % 16) by {
        assert digits[..4 - i][3 - i] == digits[3 - i];
      }
      buffer[i] := HEX_DIGITS[v % 16];
      v := v / 16;
      i := i + 1;
    }
    printed := [];
    if ToU16(spaces) >= 5 {
      i := 4;
      while i > 0
        invariant 0 <= i <= 4 && |printed| == 4 - i
        invariant forall k | 0 <= k < |printed| :: printed[k] == digits[k]
      {
        printed := printed + [buffer[i - 1]];
        i := i - 1;
      }
    }
  }

  // ---------------------------------------------------------------------
  // Line assembly

  /** The receive side of the communications task: the static line buffer and position. */
  class CommandLine {
    var line: array<int>
    var characterPosition: int
    /** The characters received since the last end of line. */
    ghost var pending: seq<int>

    ghost predicate Valid()
      reads this, line
    {
      && line.Length == LINE_LENGTH
      && 0 <= characterPosition <= LINE_LENGTH - 1
      && pending == line[..characterPosition]
      && forall k | 0 <= k < LINE_LENGTH :: IsU8(line[k])
    }

    /** The zero-initialised static buffer. */
    constructor ()
      ensures Valid() && characterPosition == 0 && pending == [] && fresh(line)
    {
      line := new int[LINE_LENGTH](_ => 0);
      characterPosition := 0;
      pending := [];
    }

    /**
     * One received character. CR, LF, or a character arriving when 79 are
     * already held, ends the line: a terminating zero is written after the
     * held characters (the character itself is dropped), the position goes
     * back to 0 and the line is parsed; the configuration takes the parsed
     * record, and the flash block is written for `aW`. Any other character
     * is appended.
     */
    method Receive(ch: int, od: ObjectDictionary, writeFileHandle: int, currents: seq<int>, toInt: seq<int> -> int)
      returns (completed: bool, effect: Effect)
      requires Valid() && od.Valid() && IsU8(ch) && |currents| == NUM_IFS
      modifies this, line, od
      ensures Valid() && od.Valid()
      ensures completed <==> (ch == CR || ch == LF || old(characterPosition) > LINE_LENGTH - 2)
      ensures !completed ==>
        && pending == old(pending) + [ch] && characterPosition == old(characterPosition) + 1
        && effect == NoEffect && od.config == old(od.config) && od.flashBlock == old(od.flashBlock)
      ensures completed ==>
        && pending == [] && characterPosition == 0
        && line[..|old(pending)|] == old(pending) && line[|old(pending)|] == 0
        && var (parsed, e) := Parse(line[..], old(od.config), writeFileHandle, currents, toInt);
           && effect == e
           && od.config == (if e == WriteFlash then parsed.(validBlock := VALID_BLOCK) else parsed)
           && od.flashBlock == (if e == WriteFlash then od.config else old(od.flashBlock))
    {
      if ch == CR || ch == LF || characterPosition > LINE_LENGTH - 2 {
        line[characterPosition] := 0;
        characterPosition := 0;
        pending := [];
        var r := Parse(line[..], od.config, writeFileHandle, currents, toInt);
        ParseShaped(line[..], od.config, writeFileHandle, currents, toInt);
        od.config := r.0;
        effect := r.1;
        if effect == WriteFlash {
          od.WriteConfigBlock();
        }
        completed := true;
      } else {
        line[characterPosition] := ch;
        characterPosition := characterPosition + 1;
        pending := pending + [ch];
        completed := false;
        effect := NoEffect;
      }
    }
  }
}
