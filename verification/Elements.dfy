/**
 What the parser makes of IO elements: a name and a value. Values of 1, 2 and 4 bytes are numbers; the
 8-byte CAN elements 145 to 154 are sliced into several named signals each.

 Values are exact rationals; `Round` keeps two decimals, halves away from zero.
 */
module Elements {
  import opened Bytes
  import opened Wire

  /** `normal` is the value brought to the scale of a chart; 1000 stands for none, and plain elements leave it 0. */
  datatype IoElement = IoElement(name: string, value: real, normal: real)

  function Round(x: real): real {
    if x >= 0.0 then (x * 100.0 + 0.5).Floor as real / 100.0
    else -((-x * 100.0 + 0.5).Floor as real) / 100.0
  }

  // ---------------------------------------------------------------- decimal names

  function Digit(d: nat): char
    requires d < 10
  {
    '0' + d as char
  }

  function Itoa(n: nat): string {
    if n < 10 then [Digit(n)] else Itoa(n / 10) + [Digit(n % 10)]
  }

  function Atoi(s: string): int {
    if s == [] then 0 else Atoi(s[..|s| - 1]) * 10 + (s[|s| - 1] as int - '0' as int)
  }

  lemma {:induction false} AtoiOfItoa(n: nat)
    ensures Atoi(Itoa(n)) == n
  {
    if n < 10 {
      assert Itoa(n)[..0] == [];
    } else {
      AtoiOfItoa(n / 10);
      var s := Itoa(n);
      assert s[..|s| - 1] == Itoa(n / 10);
    }
  }

  lemma ItoaInjective(m: nat, n: nat)
    ensures Itoa(m) == Itoa(n) <==> m == n
  {
    AtoiOfItoa(m);
    AtoiOfItoa(n);
  }

  lemma {:induction false} ItoaStartsWithDigit(n: nat)
    ensures Itoa(n) != [] && '0' <= Itoa(n)[0] <= '9'
  {
    if n < 10 {
    } else {
      ItoaStartsWithDigit(n / 10);
    }
  }

  /** Only digits, and no zero in front of others: with `AtoiOfItoa`, the decimal notation. */
  lemma {:induction false} ItoaDigits(n: nat)
    ensures forall c <- Itoa(n) :: '0' <= c <= '9'
    ensures |Itoa(n)| > 1 ==> Itoa(n)[0] != '0'
  {
    if n < 10 {
    } else {
      ItoaDigits(n / 10);
      if |Itoa(n / 10)| == 1 {
        assert n / 10 < 10;
      }
    }
  }

  function OneByteName(id: uint16): string {
    match id
    case 1 => "DigitalInput1"
    case 2 => "DigitalInput2"
    case 21 => "GSMSignal"
    case 144 => "SDStatus"
    case 179 => "DigitalOutput1"
    case 180 => "DigitalOutput2"
    case 239 => "Ignition"
    case 247 => "CrashDetection"
    case 255 => "OverSpeeding"
    case _ => Itoa(id)
  }

  function TwoByteName(id: uint16): string {
    match id
    case 9 => "AnalogInput1"
    case 10 => "AnalogInput2"
    case 11 => "AnalogInput3"
    case 66 => "ExternalVoltage"
    case 67 => "BatteryVoltage"
    case 70 => "PCBTemperature"
    case 245 => "AnalogInput4"
    case _ => Itoa(id)
  }

  /** The ids with a name of their own, and every other id by its decimal digits: no two names are equal. */
  lemma OneByteNames(a: uint16, b: uint16)
    ensures OneByteName(1) == "DigitalInput1" && OneByteName(2) == "DigitalInput2" && OneByteName(21) == "GSMSignal"
            && OneByteName(144) == "SDStatus" && OneByteName(179) == "DigitalOutput1"
            && OneByteName(180) == "DigitalOutput2" && OneByteName(239) == "Ignition"
            && OneByteName(247) == "CrashDetection" && OneByteName(255) == "OverSpeeding"
    ensures a !in {1, 2, 21, 144, 179, 180, 239, 247, 255} ==> OneByteName(a) == Itoa(a)
    ensures OneByteName(a) == OneByteName(b) <==> a == b
  {
    hide Itoa;
    ItoaInjective(a, b);
    ItoaStartsWithDigit(a);
    ItoaStartsWithDigit(b);
  }

  lemma TwoByteNames(a: uint16, b: uint16)
    ensures TwoByteName(9) == "AnalogInput1" && TwoByteName(10) == "AnalogInput2" && TwoByteName(11) == "AnalogInput3"
            && TwoByteName(66) == "ExternalVoltage" && TwoByteName(67) == "BatteryVoltage"
            && TwoByteName(70) == "PCBTemperature" && TwoByteName(245) == "AnalogInput4"
    ensures a !in {9, 10, 11, 66, 67, 70, 245} ==> TwoByteName(a) == Itoa(a)
    ensures TwoByteName(a) == TwoByteName(b) <==> a == b
  {
    hide Itoa;
    ItoaInjective(a, b);
    ItoaStartsWithDigit(a);
    ItoaStartsWithDigit(b);
  }

  // ---------------------------------------------------------------- 8-byte elements

  function GetBit(b: uint8, position: nat): nat
    requires position < 8
  {
    var n: nat := b;
    match position
    case 0 => n % 2
    case 1 => n / 2 % 2
    case 2 => n / 4 % 2
    case 3 => n / 8 % 2
    case 4 => n / 16 % 2
    case 5 => n / 32 % 2
    case 6 => n / 64 % 2
    case _ => n / 128
  }

  /** A raw number with its resolution and offset applied, to two decimals. */
  function Signal(n: int, resolution: real, offset: real): real {
    Round(n as real * resolution + offset)
  }

  /** The same with a further shift, divided by the span of the signal. */
  function Normal(n: int, resolution: real, offset: real, shift: real, span: real): real
    requires span != 0.0
  {
    Round((n as real * resolution + offset + shift) / span)
  }

  const NO_NORMAL := 1000.0

  function Names145(): (names: seq<string>)
    ensures |names| == 10 && names[0] != [] && names[0][0] > '9'
  {
    ["VehicleSpeed", "EngineSpeed_RPM", "EngineCoolantTemperature", "FuelLevelinTank", "CheckEngine",
     "AirConditionPressureSwitch1", "AirConditionPressureSwitch2", "GearShiftindicator",
     "DesiredGearValue", "VehicleType"]
  }

  function Names146(): (names: seq<string>)
    ensures |names| == 22 && names[0] != [] && names[0][0] > '9'
  {
    ["ConditionImmobilizer", "BrakePedalStatus", "ClutchPedalStatus", "GearEngagedStatus",
     "ActualAccPedal", "EngineThrottlePosition", "IndicatedEngineTorque", "EngineFrictionTorque",
     "EngineActualTorque", "CruiseControlOn_Off", "SpeedLimiterOn_Off", "conditionCruisControlLamp",
     "EngineFuleCutOff", "ConditionCatalystHeatingActivated", "ACCompressorStatus",
     "ConditionMainRelay", "Reserve", "TCU_GearShiftPosition", "Reserve", "Reserve", "Reserve",
     "Reserve"]
  }

  function Names147(): (names: seq<string>)
    ensures |names| == 5 && names[0] != [] && names[0][0] > '9'
  {
    ["distance", "Reserve", "Reserve", "VirtualAccPedal", "IntakeAirTemperature"]
  }

  function Names148(): (names: seq<string>)
    ensures |names| == 6 && names[0] != [] && names[0][0] > '9'
  {
    ["DesiredSpeed", "OilTemperature(TCU)", "AmbientAirTemperature", "EMS_DTC", "ABS_DTC", "BCM_DTC"]
  }

  function Names149(): (names: seq<string>)
    ensures |names| == 8 && names[0] != [] && names[0][0] > '9'
  {
    ["ACU_DTC", "ESC_DTC", "ICN_DTC", "EPS_DTC", "CAS_DTC", "FCM/FN_DTC", "ICU_DTC", "Reserve_DTC"]
  }

  function Names150(): (names: seq<string>)
    ensures |names| == 4 && names[0] != [] && names[0][0] > '9'
  {
    ["Sensor1", "Sensor2", "Sensor3", "Sensor4"]
  }

  function Names151(): (names: seq<string>)
    ensures |names| == 4 && names[0] != [] && names[0][0] > '9'
  {
    ["Sensor5", "Sensor6", "Sensor7", "Sensor8"]
  }

  function Names152(): (names: seq<string>)
    ensures |names| == 4 && names[0] != [] && names[0][0] > '9'
  {
    ["Sensor9", "Sensor10", "Sensor11", "Sensor12"]
  }

  function Names153(): (names: seq<string>)
    ensures |names| == 4 && names[0] != [] && names[0][0] > '9'
  {
    ["Sensor13", "Sensor14", "Sensor15", "Sensor16"]
  }

  function Names154(): (names: seq<string>)
    ensures |names| == 3 && names[0] != [] && names[0][0] > '9'
  {
    ["Sensor17", "Sensor18", "Sensor19"]
  }

  function EightByteNames(id: uint16): seq<string> {
    match id
    case 145 => Names145()
    case 146 => Names146()
    case 147 => Names147()
    case 148 => Names148()
    case 149 => Names149()
    case 150 => Names150()
    case 151 => Names151()
    case 152 => Names152()
    case 153 => Names153()
    case 154 => Names154()
    case _ => [Itoa(id)]
  }

  function Speed(raw: nat): real {
    if raw as real * 0.125 > 200.0 then 200.0 else Signal(raw, 0.125, 0.0)
  }

  function Values145(v: seq<uint8>): (values: seq<real>)
    requires |v| == 8
    ensures |values| == 10
  {
    var b7, b6, b5, b4, b3, b2, b1, b0 := v[0], v[1], v[2], v[3], v[4], v[5], v[6], v[7];
    [Speed(Uint16([b1, b0])), Signal(Uint16([b3, b2]), 1.0, 0.0), Signal(b4, 0.75, -48.0), Signal(b5, 0.390625, 0.0),
     Signal(GetBit(b6, 0), 1.0, 0.0), Signal(GetBit(b6, 1), 1.0, 0.0), Signal(GetBit(b6, 2), 1.0, 0.0),
     Signal(b6 / 8 % 4, 1.0, 0.0), Signal(b6 / 32, 1.0, 0.0), Signal(b7, 1.0, 0.0)]
  }

  function Values146(v: seq<uint8>): (values: seq<real>)
    requires |v| == 8
    ensures |values| == 22
  {
    var b7, b6, b5, b4, b3, b2, b1, b0 := v[0], v[1], v[2], v[3], v[4], v[5], v[6], v[7];
    [Signal(b0 % 8, 1.0, 0.0), Signal(b0 / 8 % 4, 1.0, 0.0), Signal(GetBit(b0, 5), 1.0, 0.0),
     Signal(b0 / 64 * 2, 1.0, 0.0), Signal(b1, 0.39063, 0.0), Signal(b2, 0.39063, 0.0), Signal(b3, 0.39063, 0.0),
     Signal(b4, 0.39063, 0.0), Signal(b5, 0.39063, 0.0),
     Signal(GetBit(b6, 0), 1.0, 0.0), Signal(GetBit(b6, 1), 1.0, 0.0), Signal(GetBit(b6, 2), 1.0, 0.0),
     Signal(GetBit(b6, 3), 1.0, 0.0), Signal(GetBit(b6, 4), 1.0, 0.0), Signal(GetBit(b6, 5), 1.0, 0.0),
     Signal(GetBit(b6, 6), 1.0, 0.0), Signal(GetBit(b6, 7), 1.0, 0.0),
     Signal(b0 % 16, 1.0, 0.0),
     Signal(GetBit(b7, 4), 1.0, 0.0), Signal(GetBit(b7, 5), 1.0, 0.0), Signal(GetBit(b7, 6), 1.0, 0.0),
     Signal(GetBit(b7, 7), 1.0, 0.0)]
  }

  function Values147(v: seq<uint8>): (values: seq<real>)
    requires |v| == 8
    ensures |values| == 5
  {
    var b7, b6, b5, b4, b3, b2, b1, b0 := v[0], v[1], v[2], v[3], v[4], v[5], v[6], v[7];
    [Round(Signal(Uint32([b3, b2, b1, b0]), 1.0, 0.0)), Signal(b4, 1.0, 0.0), Signal(b5, 1.0, 0.0),
     Signal(b6, 0.39063, 0.0), Signal(b7, 0.75, -48.0)]
  }

  function Values148(v: seq<uint8>): (values: seq<real>)
    requires |v| == 8
    ensures |values| == 6
  {
    var b7, b6, b5, b4, b3, b2, b1, b0 := v[0], v[1], v[2], v[3], v[4], v[5], v[6], v[7];
    [Signal(Uint16([b1, b0]), 0.125, 0.0), Signal(b2, 1.0, -40.0), Signal(b3, 0.5, -40.0),
     Round(Signal(Uint16([b5, b4]), 1.0, 0.0)), Signal(b6, 1.0, 0.0), Signal(b7, 1.0, 0.0)]
  }

  function Values149(v: seq<uint8>): (values: seq<real>)
    requires |v| == 8
    ensures |values| == 8
  {
    var b7, b6, b5, b4, b3, b2, b1, b0 := v[0], v[1], v[2], v[3], v[4], v[5], v[6], v[7];
    [Signal(b0, 1.0, 0.0), Signal(b1, 1.0, 0.0), Signal(b2, 1.0, 0.0), Signal(b3, 1.0, 0.0),
     Signal(b4, 1.0, 0.0), Signal(b5, 1.0, 0.0), Signal(b6, 1.0, 0.0), Signal(b7, 1.0, 0.0)]
  }

  function Values150(v: seq<uint8>): (values: seq<real>)
    requires |v| == 8
    ensures |values| == 4
  {
    var b7, b6, b5, b4, b3, b2, b1, b0 := v[0], v[1], v[2], v[3], v[4], v[5], v[6], v[7];
    [Round(Round(Signal(Uint16([b1, b0]), 1.0, 0.0) / 10.0)), Signal(Uint16([b3, b2]), 0.1, 0.0),
     Signal(Uint16([b5, b4]), 0.1, 0.0), Signal(Uint16([b7, b6]), 0.1, 0.0)]
  }

  function Values151(v: seq<uint8>): (values: seq<real>)
    requires |v| == 8
    ensures |values| == 4
  {
    var b7, b6, b5, b4, b3, b2, b1, b0 := v[0], v[1], v[2], v[3], v[4], v[5], v[6], v[7];
    [Signal(Uint16([b1, b0]), 0.1, 0.0), Signal(Uint16([b3, b2]), 0.1, 0.0), Signal(Uint16([b5, b4]), 0.1, 0.0),
     Signal(Uint16([b7, b6]), 1.0, 0.0)]
  }

  function Values152(v: seq<uint8>): (values: seq<real>)
    requires |v| == 8
    ensures |values| == 4
  {
    var b7, b6, b5, b4, b3, b2, b1, b0 := v[0], v[1], v[2], v[3], v[4], v[5], v[6], v[7];
    [Signal(Uint16([b1, b0]), 1.0, 0.0), Signal(Uint16([b3, b2]), 1.0, 0.0), Signal(Uint16([b5, b4]), 1.0, 0.0),
     Signal(Uint16([b7, b6]), 0.01, 0.0)]
  }

  function Values153(v: seq<uint8>): (values: seq<real>)
    requires |v| == 8
    ensures |values| == 4
  {
    var b7, b6, b5, b4, b3, b2, b1, b0 := v[0], v[1], v[2], v[3], v[4], v[5], v[6], v[7];
    [Signal(Uint16([b1, b0]), 0.01, 0.0), Signal(Uint16([b3, b2]), 0.01, 0.0), Signal(Uint16([b5, b4]), 0.01, 0.0),
     Signal(Uint16([b7, b6]), 0.01, -10.0)]
  }

  function Values154(v: seq<uint8>): (values: seq<real>)
    requires |v| == 8
    ensures |values| == 3
  {
    var b7, b6, b5, b4, b3, b2, b1, b0 := v[0], v[1], v[2], v[3], v[4], v[5], v[6], v[7];
    [Signal(Uint16([b1, b0]), 0.01, -10.0), Signal(Uint16([b3, b2]), 0.01, 0.0), Signal(Uint16([b5, b4]), 0.01, 0.0)]
  }

  /** Values of the signals, in the order of `EightByteNames`. Byte 7 is the first one transmitted. */
  function EightByteValues(id: uint16, v: seq<uint8>): seq<real>
    requires |v| == 8
  {
    match id
    case 145 => Values145(v)
    case 146 => Values146(v)
    case 147 => Values147(v)
    case 148 => Values148(v)
    case 149 => Values149(v)
    case 150 => Values150(v)
    case 151 => Values151(v)
    case 152 => Values152(v)
    case 153 => Values153(v)
    case 154 => Values154(v)
    case _ => [999.0]
  }

  function Normals145(v: seq<uint8>): (values: seq<real>)
    requires |v| == 8
    ensures |values| == 10
  {
    var b7, b6, b5, b4, b3, b2, b1, b0 := v[0], v[1], v[2], v[3], v[4], v[5], v[6], v[7];
    [Normal(Uint16([b1, b0]), 0.125, 0.0, 0.0, 8189.0), Normal(Uint16([b3, b2]), 1.0, 0.0, 0.0, 8160.0),
     Normal(b4, 0.75, -48.0, 48.0, 191.5), NO_NORMAL,
     Signal(GetBit(b6, 0), 1.0, 0.0), Signal(GetBit(b6, 1), 1.0, 0.0), Signal(GetBit(b6, 2), 1.0, 0.0),
     NO_NORMAL, NO_NORMAL, NO_NORMAL]
  }

  function Normals146(v: seq<uint8>): (values: seq<real>)
    requires |v| == 8
    ensures |values| == 22
  {
    var b7, b6, b5, b4, b3, b2, b1, b0 := v[0], v[1], v[2], v[3], v[4], v[5], v[6], v[7];
    [NO_NORMAL, Normal(b0 / 8 % 4, 1.0, 0.0, -1.0, 2.0), Signal(GetBit(b0, 5), 1.0, 0.0),
     Signal(b0 / 64 * 2, 1.0, 0.0), Normal(b1, 0.39063, 0.0, 0.0, 99.6094), Normal(b2, 0.39063, 0.0, 0.0, 99.2),
     Normal(b3, 0.39063, 0.0, 0.0, 99.6094), Normal(b4, 0.39063, 0.0, 0.0, 99.6094),
     Normal(b5, 0.39063, 0.0, 0.0, 99.6094),
     NO_NORMAL, NO_NORMAL, NO_NORMAL, Signal(GetBit(b6, 3), 1.0, 0.0), Signal(GetBit(b6, 4), 1.0, 0.0),
     Signal(GetBit(b6, 5), 1.0, 0.0), Signal(GetBit(b6, 6), 1.0, 0.0), NO_NORMAL,
     NO_NORMAL, NO_NORMAL, NO_NORMAL, NO_NORMAL, NO_NORMAL]
  }

  function Normals147(v: seq<uint8>): (values: seq<real>)
    requires |v| == 8
    ensures |values| == 5
  {
    var b7, b6, b5, b4, b3, b2, b1, b0 := v[0], v[1], v[2], v[3], v[4], v[5], v[6], v[7];
    [NO_NORMAL, NO_NORMAL, NO_NORMAL, Normal(b6, 0.39063, 0.0, 0.0, 99.2), Normal(b7, 0.75, -48.0, 48.0, 191.5)]
  }

  function Normals148(v: seq<uint8>): (values: seq<real>)
    requires |v| == 8
    ensures |values| == 6
  {
    var b7, b6, b5, b4, b3, b2, b1, b0 := v[0], v[1], v[2], v[3], v[4], v[5], v[6], v[7];
    [NO_NORMAL, Normal(b2, 1.0, -40.0, 40.0, 254.0), Normal(b3, 0.5, -40.0, 40.0, 126.5),
     NO_NORMAL, NO_NORMAL, NO_NORMAL]
  }

  function Normals149(v: seq<uint8>): (values: seq<real>)
    requires |v| == 8
    ensures |values| == 8
  {
    var b7, b6, b5, b4, b3, b2, b1, b0 := v[0], v[1], v[2], v[3], v[4], v[5], v[6], v[7];
    [NO_NORMAL, NO_NORMAL, NO_NORMAL, NO_NORMAL, NO_NORMAL, NO_NORMAL, NO_NORMAL, NO_NORMAL]
  }

  function Normals150(v: seq<uint8>): (values: seq<real>)
    requires |v| == 8
    ensures |values| == 4
  {
    var b7, b6, b5, b4, b3, b2, b1, b0 := v[0], v[1], v[2], v[3], v[4], v[5], v[6], v[7];
    [Round(Round(Signal(Uint16([b1, b0]), 1.0, 0.0) / 10.0) / 1370.0),
     Normal(Uint16([b3, b2]), 0.1, 0.0, 0.0, 1370.0), Normal(Uint16([b5, b4]), 0.1, 0.0, 0.0, 1370.0),
     Normal(Uint16([b7, b6]), 0.1, 0.0, 0.0, 1370.0)]
  }

  function Normals151(v: seq<uint8>): (values: seq<real>)
    requires |v| == 8
    ensures |values| == 4
  {
    var b7, b6, b5, b4, b3, b2, b1, b0 := v[0], v[1], v[2], v[3], v[4], v[5], v[6], v[7];
    [Normal(Uint16([b1, b0]), 0.1, 0.0, 0.0, 1370.0), Normal(Uint16([b3, b2]), 0.1, 0.0, 0.0, 1370.0),
     Normal(Uint16([b5, b4]), 0.1, 0.0, 0.0, 1370.0), Normal(Uint16([b7, b6]), 1.0, 0.0, 0.0, 65535.0)]
  }

  function Normals152(v: seq<uint8>): (values: seq<real>)
    requires |v| == 8
    ensures |values| == 4
  {
    var b7, b6, b5, b4, b3, b2, b1, b0 := v[0], v[1], v[2], v[3], v[4], v[5], v[6], v[7];
    [Normal(Uint16([b1, b0]), 1.0, 0.0, 0.0, 65535.0), Normal(Uint16([b3, b2]), 1.0, 0.0, 0.0, 65535.0),
     Normal(Uint16([b5, b4]), 1.0, 0.0, 0.0, 65535.0), Normal(Uint16([b7, b6]), 0.01, 0.0, 0.0, 10.0)]
  }

  function Normals153(v: seq<uint8>): (values: seq<real>)
    requires |v| == 8
    ensures |values| == 4
  {
    var b7, b6, b5, b4, b3, b2, b1, b0 := v[0], v[1], v[2], v[3], v[4], v[5], v[6], v[7];
    [Normal(Uint16([b1, b0]), 0.01, 0.0, 0.0, 10.0), Normal(Uint16([b3, b2]), 0.01, 0.0, 0.0, 10.0),
     Normal(Uint16([b5, b4]), 0.01, 0.0, 0.0, 10.0), Normal(Uint16([b7, b6]), 0.01, -10.0, 10.0, 20.0)]
  }

  function Normals154(v: seq<uint8>): (values: seq<real>)
    requires |v| == 8
    ensures |values| == 3
  {
    var b7, b6, b5, b4, b3, b2, b1, b0 := v[0], v[1], v[2], v[3], v[4], v[5], v[6], v[7];
    [Normal(Uint16([b1, b0]), 0.01, -10.0, 10.0, 20.0), Normal(Uint16([b3, b2]), 0.01, 0.0, 0.0, 20.0),
     Normal(Uint16([b5, b4]), 0.01, 0.0, 0.0, 20.0)]
  }

  /** Normal values of the signals, in the same order. */
  function EightByteNormals(id: uint16, v: seq<uint8>): seq<real>
    requires |v| == 8
  {
    match id
    case 145 => Normals145(v)
    case 146 => Normals146(v)
    case 147 => Normals147(v)
    case 148 => Normals148(v)
    case 149 => Normals149(v)
    case 150 => Normals150(v)
    case 151 => Normals151(v)
    case 152 => Normals152(v)
    case 153 => Normals153(v)
    case 154 => Normals154(v)
    case _ => [NO_NORMAL]
  }

  /** Number of elements one 8-byte element expands to. */
  function Expand(id: uint16): nat {
    match id
    case 145 => 10
    case 146 => 22
    case 147 => 5
    case 148 => 6
    case 149 => 8
    case 150 => 4
    case 151 => 4
    case 152 => 4
    case 153 => 4
    case 154 => 3
    case _ => 1
  }

  lemma NamesExpand(id: uint16)
    ensures |EightByteNames(id)| == Expand(id)
  {
  }

  /** An element that expands to several signals has no decimal name. */
  lemma SignalNames(id: uint16)
    requires Expand(id) != 1
    ensures EightByteNames(id) != [] && EightByteNames(id)[0] != [] && EightByteNames(id)[0][0] > '9'
  {
    hide Names145, Names146, Names147, Names148, Names149, Names150, Names151, Names152, Names153, Names154;
  }

  lemma ValuesExpand(id: uint16, v: seq<uint8>)
    requires |v| == 8
    ensures |EightByteValues(id, v)| == |EightByteNormals(id, v)| == Expand(id)
  {
    hide Round, Uint16, Uint32, GetBit, Speed, Signal, Normal;
  }

  function Label(names: seq<string>, values: seq<real>, normals: seq<real>): (es: seq<IoElement>)
    requires |names| == |values| == |normals|
    ensures |es| == |names| && forall i | 0 <= i < |es| :: es[i] == IoElement(names[i], values[i], normals[i])
  {
    seq(|names|, i requires 0 <= i < |names| => IoElement(names[i], values[i], normals[i]))
  }

  function DecodeEight(id: uint16, v: seq<uint8>): seq<IoElement>
    requires |v| == 8
  {
    NamesExpand(id);
    ValuesExpand(id, v);
    Label(EightByteNames(id), EightByteValues(id, v), EightByteNormals(id, v))
  }

  /** What one element of stage `k` is decoded to. */
  function DecodeElement(k: nat, e: Element): seq<IoElement>
    requires k < STAGES && |e.value| == Width(k)
  {
    if k == 0 then [IoElement(OneByteName(e.id), Round(e.value[0] as real), 0.0)]
    else if k == 1 then [IoElement(TwoByteName(e.id), Round(Uint16(e.value) as real), 0.0)]
    else if k == 2 then [IoElement(Itoa(e.id), Round(Uint32(e.value) as real), 0.0)]
    else DecodeEight(e.id, e.value)
  }

  function NumberName(k: nat, id: uint16): string {
    if k == 0 then OneByteName(id) else if k == 1 then TwoByteName(id) else Itoa(id)
  }

  /** An element of 1, 2 or 4 bytes is the number that its bytes write. */
  lemma NumberRead(k: nat, e: Element)
    requires k < 3 && |e.value| == Width(k)
    ensures DecodeElement(k, e) == [IoElement(NumberName(k, e.id), BigEndian(e.value) as real, 0.0)]
  {
    hide Itoa, OneByteName, TwoByteName, Uint16, Uint32;
    RoundWhole(BigEndian(e.value));
    if k == 0 {
      assert e.value[..0] == [];
    } else if k == 1 {
      Uint16Is(e.value);
    } else {
      Uint32Is(e.value);
    }
  }

  // ---------------------------------------------------------------- what the 8-byte decoders keep

  /** The normal value of a speed, in hundredths. */
  function SpeedStep(raw: nat): nat {
    (raw * 25 + 8189) / 16378
  }

  /** The speeds reported alike: those from 1600 on are, but for their normal values. */
  predicate SameSpeed(a: nat, b: nat) {
    a == b || (a >= 1600 && b >= 1600 && SpeedStep(a) == SpeedStep(b))
  }

  /** The payloads `v` and `w` of element `id` that are decoded to the same signals. */
  predicate SamePayload(id: uint16, v: seq<uint8>, w: seq<uint8>)
    requires |v| == |w| == 8
  {
    match id
    case 145 => v[..6] == w[..6] && SameSpeed(Uint16(v[6..]), Uint16(w[6..]))
    case 146 => v[1..] == w[1..] && v[0] / 16 == w[0] / 16
    case 147 => v == w
    case 148 => v == w
    case 149 => v == w
    case 150 => v == w
    case 151 => v == w
    case 152 => v == w
    case 153 => v == w
    case 154 => v[2..] == w[2..]
    case _ => true
  }

  /** Rounding gives the nearest whole number of hundredths, and of two nearest ones that farther from zero. */
  lemma RoundNearest(x: real) returns (hundredths: int)
    ensures var r := Round(x);
            r == hundredths as real / 100.0 && -0.005 <= r - x <= 0.005
            && (r - x == 0.005 ==> x > 0.0) && (r - x == -0.005 ==> x < 0.0)
  {
    hundredths := if x >= 0.0 then (x * 100.0 + 0.5).Floor else -((-x * 100.0 + 0.5).Floor);
  }

  lemma RoundInjective(x: real, y: real)
    requires x + 0.01 <= y || y + 0.01 <= x
    ensures Round(x) != Round(y)
  {
  }

  lemma FloorHalf(n: int)
    ensures (n as real + 0.5).Floor == n
  {
  }

  lemma RoundWhole(n: nat)
    ensures Round(n as real) == n as real
  {
    FloorHalf(n * 100);
    assert (n * 100) as real == n as real * 100.0;
  }

  lemma SignalWhole(n: nat)
    ensures Signal(n, 1.0, 0.0) == n as real
  {
    RoundWhole(n);
    hide Round;
    assert n as real * 1.0 + 0.0 == n as real;
  }

  /** A resolution of at least one hundredth keeps different raw numbers apart. */
  lemma SignalKept(m: int, n: int, c: real, d: real)
    requires c >= 0.01
    ensures Signal(m, c, d) == Signal(n, c, d) <==> m == n
  {
    hide Round;
    var x, y := m as real * c + d, n as real * c + d;
    if m != n {
      assert x - y == (m - n) as real * c;
      if m > n {
        assert (m - n - 1) as real * c >= 0.0;
      } else {
        assert (n - m - 1) as real * c >= 0.0;
      }
      RoundInjective(x, y);
    }
  }

  lemma WordInjective(a: uint8, a': uint8, b: uint8, b': uint8)
    ensures Uint16([a, a']) == Uint16([b, b']) <==> a == b && a' == b'
  {
  }

  lemma WordKept(a: uint8, a': uint8, b: uint8, b': uint8, c: real, d: real)
    requires c >= 0.01
    ensures Signal(Uint16([a, a']), c, d) == Signal(Uint16([b, b']), c, d) <==> a == b && a' == b'
  {
    hide Signal, Uint16;
    WordInjective(a, a', b, b');
    SignalKept(Uint16([a, a']), Uint16([b, b']), c, d);
  }

  lemma RoundedWordKept(a: uint8, a': uint8, b: uint8, b': uint8)
    ensures Round(Signal(Uint16([a, a']), 1.0, 0.0)) == Round(Signal(Uint16([b, b']), 1.0, 0.0)) <==> a == b && a' == b'
  {
    hide Signal, Uint16, Round;
    WordInjective(a, a', b, b');
    SignalWhole(Uint16([a, a']));
    SignalWhole(Uint16([b, b']));
    RoundWhole(Uint16([a, a']));
    RoundWhole(Uint16([b, b']));
  }

  lemma TenthsWhole(n: nat)
    ensures Round(Round(Signal(n, 1.0, 0.0) / 10.0)) == n as real / 10.0
  {
    SignalWhole(n);
    FloorHalf(n * 10);
    hide Signal;
    assert (n * 10) as real == n as real * 10.0;
    assert Round(n as real / 10.0) == n as real / 10.0;
  }

  lemma RoundedTenthsKept(a: uint8, a': uint8, b: uint8, b': uint8)
    ensures Round(Round(Signal(Uint16([a, a']), 1.0, 0.0) / 10.0))
         == Round(Round(Signal(Uint16([b, b']), 1.0, 0.0) / 10.0))
       <==> a == b && a' == b'
  {
    hide Signal, Uint16, Round;
    WordInjective(a, a', b, b');
    TenthsWhole(Uint16([a, a']));
    TenthsWhole(Uint16([b, b']));
  }

  /** Speeds above 200 km/h, raw values above 1600, are all reported as 200. */
  lemma SpeedKept(a: uint8, a': uint8, b: uint8, b': uint8)
    ensures Speed(Uint16([a, a'])) == Speed(Uint16([b, b']))
       <==> (a == b && a' == b') || (Uint16([a, a']) >= 1600 && Uint16([b, b']) >= 1600)
  {
    hide Signal;
    WordInjective(a, a', b, b');
    SignalKept(Uint16([a, a']), Uint16([b, b']), 0.125, 0.0);
    SignalKept(Uint16([a, a']), 1600, 0.125, 0.0);
    SignalKept(Uint16([b, b']), 1600, 0.125, 0.0);
    TopSpeed();
  }

  lemma TopSpeed()
    ensures Signal(1600, 0.125, 0.0) == 200.0
  {
    RoundWhole(200);
    hide Round;
    assert 1600 as real * 0.125 + 0.0 == 200 as real;
  }

  lemma BitsSum(n: nat)
    ensures n == n % 2 + 2 * (n / 2 % 2) + 4 * (n / 4 % 2) + 8 * (n / 8 % 4) + 32 * (n / 32)
  {
    assert n / 4 == n / 2 / 2 && n / 8 == n / 4 / 2 && n / 32 == n / 8 / 4;
  }

  lemma FlagsKept(a: uint8, b: uint8)
    ensures Signal(GetBit(a, 0), 1.0, 0.0) == Signal(GetBit(b, 0), 1.0, 0.0)
            && Signal(GetBit(a, 1), 1.0, 0.0) == Signal(GetBit(b, 1), 1.0, 0.0)
            && Signal(GetBit(a, 2), 1.0, 0.0) == Signal(GetBit(b, 2), 1.0, 0.0)
            && Signal(a / 8 % 4, 1.0, 0.0) == Signal(b / 8 % 4, 1.0, 0.0)
            && Signal(a / 32, 1.0, 0.0) == Signal(b / 32, 1.0, 0.0)
       <==> a == b
  {
    hide Signal;
    SignalKept(GetBit(a, 0), GetBit(b, 0), 1.0, 0.0);
    SignalKept(GetBit(a, 1), GetBit(b, 1), 1.0, 0.0);
    SignalKept(GetBit(a, 2), GetBit(b, 2), 1.0, 0.0);
    SignalKept(a / 8 % 4, b / 8 % 4, 1.0, 0.0);
    SignalKept(a / 32, b / 32, 1.0, 0.0);
    BitsSum(a);
    BitsSum(b);
  }

  lemma NibblesSum(n: nat)
    requires n < 0x100
    ensures n == n % 16 + 16 * (n / 16)
    ensures n % 16 == n % 2 + 2 * (n / 2 % 2) + 4 * (n / 4 % 2) + 8 * (n / 8 % 2)
    ensures n / 16 == n / 16 % 2 + 2 * (n / 32 % 2) + 4 * (n / 64 % 2) + 8 * (n / 128)
  {
    assert n / 4 == n / 2 / 2 && n / 8 == n / 4 / 2 && n / 16 == n / 8 / 2;
    assert n / 32 == n / 16 / 2 && n / 64 == n / 32 / 2 && n / 128 == n / 64 / 2;
  }

  lemma HighBits(n: nat)
    requires n < 0x100
    ensures n / 32 == n / 16 / 2 && n / 64 == n / 16 / 4 && n / 128 == n / 16 / 8
  {
  }

  lemma BitsTell(a: uint8, b: uint8)
    ensures (forall k: nat | k < 8 :: GetBit(a, k) == GetBit(b, k)) <==> a == b
    ensures (forall k: nat | 4 <= k < 8 :: GetBit(a, k) == GetBit(b, k)) <==> a / 16 == b / 16
  {
    NibblesSum(a);
    NibblesSum(b);
    if forall k: nat | 4 <= k < 8 :: GetBit(a, k) == GetBit(b, k) {
      assert GetBit(a, 4) == GetBit(b, 4) && GetBit(a, 5) == GetBit(b, 5)
             && GetBit(a, 6) == GetBit(b, 6) && GetBit(a, 7) == GetBit(b, 7);
    }
    if forall k: nat | k < 8 :: GetBit(a, k) == GetBit(b, k) {
      assert GetBit(a, 0) == GetBit(b, 0) && GetBit(a, 1) == GetBit(b, 1)
             && GetBit(a, 2) == GetBit(b, 2) && GetBit(a, 3) == GetBit(b, 3);
    }
    if a / 16 == b / 16 {
      HighBits(a);
      HighBits(b);
    }
  }

  /** All eight bits of a byte, or those of its high half, are reported one by one. */
  lemma StatusKept(a: uint8, b: uint8)
    ensures (forall k: nat | k < 8 :: Signal(GetBit(a, k), 1.0, 0.0) == Signal(GetBit(b, k), 1.0, 0.0)) <==> a == b
    ensures (forall k: nat | 4 <= k < 8 :: Signal(GetBit(a, k), 1.0, 0.0) == Signal(GetBit(b, k), 1.0, 0.0))
       <==> a / 16 == b / 16
  {
    hide Signal;
    forall k: nat | k < 8
      ensures Signal(GetBit(a, k), 1.0, 0.0) == Signal(GetBit(b, k), 1.0, 0.0) <==> GetBit(a, k) == GetBit(b, k)
    {
      SignalKept(GetBit(a, k), GetBit(b, k), 1.0, 0.0);
    }
    hide GetBit;
    BitsTell(a, b);
  }

  lemma PedalsSum(n: nat)
    requires n < 0x100
    ensures n == n % 8 + 8 * (n / 8 % 4) + 32 * (n / 32 % 2) + 32 * (n / 64 * 2)
  {
    assert n / 32 == n / 8 / 4 && n / 64 == n / 32 / 2;
  }

  lemma PedalsKept(a: uint8, b: uint8)
    ensures Signal(a % 8, 1.0, 0.0) == Signal(b % 8, 1.0, 0.0)
            && Signal(a / 8 % 4, 1.0, 0.0) == Signal(b / 8 % 4, 1.0, 0.0)
            && Signal(GetBit(a, 5), 1.0, 0.0) == Signal(GetBit(b, 5), 1.0, 0.0)
            && Signal(a / 64 * 2, 1.0, 0.0) == Signal(b / 64 * 2, 1.0, 0.0)
            && Signal(a % 16, 1.0, 0.0) == Signal(b % 16, 1.0, 0.0)
       <==> a == b
  {
    hide Signal;
    SignalKept(a % 8, b % 8, 1.0, 0.0);
    SignalKept(a / 8 % 4, b / 8 % 4, 1.0, 0.0);
    SignalKept(GetBit(a, 5), GetBit(b, 5), 1.0, 0.0);
    SignalKept(a / 64 * 2, b / 64 * 2, 1.0, 0.0);
    PedalsSum(a);
    PedalsSum(b);
  }

  lemma DistanceKept(v: seq<uint8>, w: seq<uint8>)
    requires |v| == |w| == 4
    ensures Round(Signal(Uint32(v), 1.0, 0.0)) == Round(Signal(Uint32(w), 1.0, 0.0)) <==> v == w
  {
    hide Round, Signal, Uint32, PutUint32;
    SignalWhole(Uint32(v));
    SignalWhole(Uint32(w));
    RoundWhole(Uint32(v));
    RoundWhole(Uint32(w));
    PutUint32Inverts(v);
    PutUint32Inverts(w);
  }

  lemma FloorOfQuotient(n: nat, d: nat)
    requires d > 0
    ensures (n as real / d as real).Floor == n / d
  {
    assert n == n / d * d + n % d;
    assert n as real == (n / d) as real * d as real + (n % d) as real;
    assert n as real / d as real == (n / d) as real + (n % d) as real / d as real;
    assert 0.0 <= (n % d) as real / d as real < 1.0;
  }

  lemma SpeedNormal(raw: nat)
    ensures Normal(raw, 0.125, 0.0, 0.0, 8189.0) == SpeedStep(raw) as real / 100.0
  {
    var x := (raw as real * 0.125 + 0.0 + 0.0) / 8189.0;
    assert x * 100.0 + 0.5 == (raw * 25 + 8189) as real / 16378 as real;
    FloorOfQuotient(raw * 25 + 8189, 16378);
  }

  /** The value and the normal value of a speed together tell as much as `SameSpeed` says. */
  lemma SpeedReportKept(a: uint8, a': uint8, b: uint8, b': uint8)
    ensures Speed(Uint16([a, a'])) == Speed(Uint16([b, b']))
            && Normal(Uint16([a, a']), 0.125, 0.0, 0.0, 8189.0) == Normal(Uint16([b, b']), 0.125, 0.0, 0.0, 8189.0)
       <==> SameSpeed(Uint16([a, a']), Uint16([b, b']))
  {
    hide Speed, Normal, Uint16, SpeedStep;
    SpeedKept(a, a', b, b');
    WordInjective(a, a', b, b');
    SpeedNormal(Uint16([a, a']));
    SpeedNormal(Uint16([b, b']));
  }

  /** All but the speed, by the signals alone. */
  lemma Signals145(v: seq<uint8>, w: seq<uint8>)
    requires |v| == |w| == 8
    ensures EightByteValues(145, v) == EightByteValues(145, w)
       <==> v[..6] == w[..6] && Speed(Uint16([v[6], v[7]])) == Speed(Uint16([w[6], w[7]]))
  {
    hide Signal, Speed, GetBit, Uint16;
    var x, y := EightByteValues(145, v), EightByteValues(145, w);
    WordKept(v[4], v[5], w[4], w[5], 1.0, 0.0);
    SignalKept(v[3], w[3], 0.75, -48.0);
    SignalKept(v[2], w[2], 0.390625, 0.0);
    FlagsKept(v[1], w[1]);
    SignalKept(v[0], w[0], 1.0, 0.0);
    if x == y {
      assert x[0] == y[0] && x[1] == y[1] && x[2] == y[2] && x[3] == y[3] && x[4] == y[4] && x[5] == y[5] &&
             x[6] == y[6] && x[7] == y[7] && x[8] == y[8] && x[9] == y[9];
      assert v[..6] == w[..6];
    }
  }

  lemma Kept145(v: seq<uint8>, w: seq<uint8>)
    requires |v| == |w| == 8
    ensures EightByteValues(145, v) == EightByteValues(145, w) && EightByteNormals(145, v) == EightByteNormals(145, w)
       <==> SamePayload(145, v, w)
  {
    hide Signal, Normal, Speed, GetBit, Uint16, SameSpeed, EightByteValues;
    Signals145(v, w);
    SpeedReportKept(v[6], v[7], w[6], w[7]);
    assert v[6..] == [v[6], v[7]] && w[6..] == [w[6], w[7]];
    var x, y := EightByteNormals(145, v), EightByteNormals(145, w);
    assert x == y ==> x[0] == y[0];
    if v[..6] == w[..6] {
      assert v[..6][1] == v[1] && v[..6][3] == v[3] && v[..6][4] == v[4] && v[..6][5] == v[5];
      assert w[..6][1] == w[1] && w[..6][3] == w[3] && w[..6][4] == w[4] && w[..6][5] == w[5];
      assert v[2] == v[..6][2] && w[2] == w[..6][2];
    }
  }

  lemma Kept146(v: seq<uint8>, w: seq<uint8>)
    requires |v| == |w| == 8
    ensures EightByteValues(146, v) == EightByteValues(146, w) <==> SamePayload(146, v, w)
  {
    hide Signal, GetBit;
    var x, y := EightByteValues(146, v), EightByteValues(146, w);
    PedalsKept(v[7], w[7]);
    SignalKept(v[6], w[6], 0.39063, 0.0);
    SignalKept(v[5], w[5], 0.39063, 0.0);
    SignalKept(v[4], w[4], 0.39063, 0.0);
    SignalKept(v[3], w[3], 0.39063, 0.0);
    SignalKept(v[2], w[2], 0.39063, 0.0);
    StatusKept(v[1], w[1]);
    StatusKept(v[0], w[0]);
    if x == y {
      assert x[0] == y[0] && x[1] == y[1] && x[2] == y[2] && x[3] == y[3] && x[4] == y[4] && x[5] == y[5] &&
             x[6] == y[6] && x[7] == y[7] && x[8] == y[8] && x[9] == y[9] && x[10] == y[10] &&
             x[11] == y[11] && x[12] == y[12] && x[13] == y[13] && x[14] == y[14] && x[15] == y[15] &&
             x[16] == y[16] && x[17] == y[17] && x[18] == y[18] && x[19] == y[19] && x[20] == y[20] &&
             x[21] == y[21];
      assert v[1..] == w[1..];
    }
  }

  lemma Kept147(v: seq<uint8>, w: seq<uint8>)
    requires |v| == |w| == 8
    ensures EightByteValues(147, v) == EightByteValues(147, w) <==> SamePayload(147, v, w)
  {
    hide Round, Signal, Uint32;
    var x, y := EightByteValues(147, v), EightByteValues(147, w);
    DistanceKept([v[4], v[5], v[6], v[7]], [w[4], w[5], w[6], w[7]]);
    SignalKept(v[3], w[3], 1.0, 0.0);
    SignalKept(v[2], w[2], 1.0, 0.0);
    SignalKept(v[1], w[1], 0.39063, 0.0);
    SignalKept(v[0], w[0], 0.75, -48.0);
    if x == y {
      assert x[0] == y[0] && x[1] == y[1] && x[2] == y[2] && x[3] == y[3] && x[4] == y[4];
      assert v == [v[0], v[1], v[2], v[3]] + [v[4], v[5], v[6], v[7]] == w;
    }
  }

  lemma Kept148(v: seq<uint8>, w: seq<uint8>)
    requires |v| == |w| == 8
    ensures EightByteValues(148, v) == EightByteValues(148, w) <==> SamePayload(148, v, w)
  {
    hide Round, Signal, Uint16;
    var x, y := EightByteValues(148, v), EightByteValues(148, w);
    WordKept(v[6], v[7], w[6], w[7], 0.125, 0.0);
    SignalKept(v[5], w[5], 1.0, -40.0);
    SignalKept(v[4], w[4], 0.5, -40.0);
    RoundedWordKept(v[2], v[3], w[2], w[3]);
    SignalKept(v[1], w[1], 1.0, 0.0);
    SignalKept(v[0], w[0], 1.0, 0.0);
    if x == y {
      assert x[0] == y[0] && x[1] == y[1] && x[2] == y[2] && x[3] == y[3] && x[4] == y[4] && x[5] == y[5];
      assert v == w;
    }
  }

  lemma Kept149(v: seq<uint8>, w: seq<uint8>)
    requires |v| == |w| == 8
    ensures EightByteValues(149, v) == EightByteValues(149, w) <==> SamePayload(149, v, w)
  {
    hide Signal;
    var x, y := EightByteValues(149, v), EightByteValues(149, w);
    SignalKept(v[7], w[7], 1.0, 0.0);
    SignalKept(v[6], w[6], 1.0, 0.0);
    SignalKept(v[5], w[5], 1.0, 0.0);
    SignalKept(v[4], w[4], 1.0, 0.0);
    SignalKept(v[3], w[3], 1.0, 0.0);
    SignalKept(v[2], w[2], 1.0, 0.0);
    SignalKept(v[1], w[1], 1.0, 0.0);
    SignalKept(v[0], w[0], 1.0, 0.0);
    if x == y {
      assert x[0] == y[0] && x[1] == y[1] && x[2] == y[2] && x[3] == y[3] && x[4] == y[4] && x[5] == y[5] &&
             x[6] == y[6] && x[7] == y[7];
      assert v == w;
    }
  }

  lemma Kept150(v: seq<uint8>, w: seq<uint8>)
    requires |v| == |w| == 8
    ensures EightByteValues(150, v) == EightByteValues(150, w) <==> SamePayload(150, v, w)
  {
    hide Round, Signal, Uint16;
    var x, y := EightByteValues(150, v), EightByteValues(150, w);
    RoundedTenthsKept(v[6], v[7], w[6], w[7]);
    WordKept(v[4], v[5], w[4], w[5], 0.1, 0.0);
    WordKept(v[2], v[3], w[2], w[3], 0.1, 0.0);
    WordKept(v[0], v[1], w[0], w[1], 0.1, 0.0);
    if x == y {
      assert x[0] == y[0] && x[1] == y[1] && x[2] == y[2] && x[3] == y[3];
      assert v == w;
    }
  }

  lemma Kept151(v: seq<uint8>, w: seq<uint8>)
    requires |v| == |w| == 8
    ensures EightByteValues(151, v) == EightByteValues(151, w) <==> SamePayload(151, v, w)
  {
    hide Signal, Uint16;
    var x, y := EightByteValues(151, v), EightByteValues(151, w);
    WordKept(v[6], v[7], w[6], w[7], 0.1, 0.0);
    WordKept(v[4], v[5], w[4], w[5], 0.1, 0.0);
    WordKept(v[2], v[3], w[2], w[3], 0.1, 0.0);
    WordKept(v[0], v[1], w[0], w[1], 1.0, 0.0);
    if x == y {
      assert x[0] == y[0] && x[1] == y[1] && x[2] == y[2] && x[3] == y[3];
      assert v == w;
    }
  }

  lemma Kept152(v: seq<uint8>, w: seq<uint8>)
    requires |v| == |w| == 8
    ensures EightByteValues(152, v) == EightByteValues(152, w) <==> SamePayload(152, v, w)
  {
    hide Signal, Uint16;
    var x, y := EightByteValues(152, v), EightByteValues(152, w);
    WordKept(v[6], v[7], w[6], w[7], 1.0, 0.0);
    WordKept(v[4], v[5], w[4], w[5], 1.0, 0.0);
    WordKept(v[2], v[3], w[2], w[3], 1.0, 0.0);
    WordKept(v[0], v[1], w[0], w[1], 0.01, 0.0);
    if x == y {
      assert x[0] == y[0] && x[1] == y[1] && x[2] == y[2] && x[3] == y[3];
      assert v == w;
    }
  }

  lemma Kept153(v: seq<uint8>, w: seq<uint8>)
    requires |v| == |w| == 8
    ensures EightByteValues(153, v) == EightByteValues(153, w) <==> SamePayload(153, v, w)
  {
    hide Signal, Uint16;
    var x, y := EightByteValues(153, v), EightByteValues(153, w);
    WordKept(v[6], v[7], w[6], w[7], 0.01, 0.0);
    WordKept(v[4], v[5], w[4], w[5], 0.01, 0.0);
    WordKept(v[2], v[3], w[2], w[3], 0.01, 0.0);
    WordKept(v[0], v[1], w[0], w[1], 0.01, -10.0);
    if x == y {
      assert x[0] == y[0] && x[1] == y[1] && x[2] == y[2] && x[3] == y[3];
      assert v == w;
    }
  }

  lemma Kept154(v: seq<uint8>, w: seq<uint8>)
    requires |v| == |w| == 8
    ensures EightByteValues(154, v) == EightByteValues(154, w) <==> SamePayload(154, v, w)
  {
    hide Signal, Uint16;
    var x, y := EightByteValues(154, v), EightByteValues(154, w);
    WordKept(v[6], v[7], w[6], w[7], 0.01, -10.0);
    WordKept(v[4], v[5], w[4], w[5], 0.01, 0.0);
    WordKept(v[2], v[3], w[2], w[3], 0.01, 0.0);
    if x == y {
      assert x[0] == y[0] && x[1] == y[1] && x[2] == y[2];
      assert v[2..] == w[2..];
    }
  }

  lemma LabelInjective(names: seq<string>, x: seq<real>, y: seq<real>, x': seq<real>, y': seq<real>)
    requires |names| == |x| == |y| == |x'| == |y'|
    ensures Label(names, x, x') == Label(names, y, y') <==> x == y && x' == y'
  {
    var l, m := Label(names, x, x'), Label(names, y, y');
    if l == m {
      forall i | 0 <= i < |x| ensures x[i] == y[i] && x'[i] == y'[i] {
        assert l[i] == m[i];
      }
    }
  }

  /** But for the speed of element 145, the normal values tell nothing that the signals do not. */
  lemma NormalsFollow(id: uint16, v: seq<uint8>, w: seq<uint8>)
    requires |v| == |w| == 8 && id != 145 && SamePayload(id, v, w)
    ensures EightByteNormals(id, v) == EightByteNormals(id, w)
  {
    hide Signal, Normal, Round, GetBit, Uint16;
    match id
    case 146 => assert forall i | 1 <= i < 8 :: v[i] == v[1..][i - 1] && w[i] == w[1..][i - 1];
    case 154 => assert forall i | 2 <= i < 8 :: v[i] == v[2..][i - 2] && w[i] == w[2..][i - 2];
    case _ =>
  }

  /** Exactly which 8-byte payloads the decoder tells apart, for every element id. */
  lemma PayloadKept(id: uint16, v: seq<uint8>, w: seq<uint8>)
    requires |v| == |w| == 8
    ensures DecodeEight(id, v) == DecodeEight(id, w) <==> SamePayload(id, v, w)
  {
    hide EightByteNames, EightByteValues, EightByteNormals, Label, SamePayload;
    NamesExpand(id);
    ValuesExpand(id, v);
    ValuesExpand(id, w);
    LabelInjective(EightByteNames(id), EightByteValues(id, v), EightByteValues(id, w), EightByteNormals(id, v),
                   EightByteNormals(id, w));
    if id != 145 && SamePayload(id, v, w) {
      NormalsFollow(id, v, w);
    }
    match id
    case 145 => Kept145(v, w);
    case 146 => Kept146(v, w);
    case 147 => Kept147(v, w);
    case 148 => Kept148(v, w);
    case 149 => Kept149(v, w);
    case 150 => Kept150(v, w);
    case 151 => Kept151(v, w);
    case 152 => Kept152(v, w);
    case 153 => Kept153(v, w);
    case 154 => Kept154(v, w);
    case _ => OthersLost(id, v, w);
  }

  lemma OthersLost(id: uint16, v: seq<uint8>, w: seq<uint8>)
    requires |v| == |w| == 8 && !(145 <= id <= 154)
    ensures EightByteValues(id, v) == EightByteValues(id, w) && SamePayload(id, v, w)
  {
  }
}
