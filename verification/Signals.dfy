/**
 The signals of the 8-byte CAN elements, as a table: every signal is a run of bits of the payload, taken as one
 64-bit number, times a factor, plus an offset, to two decimals. The decoder, which slices bytes, is proved to
 give exactly what the table says.
 */
module Signals {
  import opened Bytes
  import opened Wire
  import opened Elements

  /**
   `width` bits of the payload from bit `low` on, counting from the lowest. A scaled signal has a normal value: it is
   shifted and divided by its span. A capped one is cut off at its largest value.
   */
  datatype Field =
    | Plain(name: string, low: nat, width: nat, factor: real, offset: real)
    | Scaled(name: string, low: nat, width: nat, factor: real, offset: real, shift: real, span: real)
    | Capped(name: string, low: nat, width: nat, factor: real, offset: real, shift: real, span: real, cap: real)

  function Pow2(n: nat): (p: nat)
    ensures p > 0
  {
    if n == 0 then 1 else 2 * Pow2(n - 1)
  }

  function Slice(number: nat, low: nat, width: nat): nat {
    number / Pow2(low) % Pow2(width)
  }

  function Layout145(): (fields: seq<Field>)
    ensures |fields| == 10
  {
    [Capped("VehicleSpeed", 0, 16, 0.125, 0.0, 0.0, 8189.0, 200.0),
     Scaled("EngineSpeed_RPM", 16, 16, 1.0, 0.0, 0.0, 8160.0),
     Scaled("EngineCoolantTemperature", 32, 8, 0.75, -48.0, 48.0, 191.5),
     Plain("FuelLevelinTank", 40, 8, 0.390625, 0.0),
     Scaled("CheckEngine", 48, 1, 1.0, 0.0, 0.0, 1.0),
     Scaled("AirConditionPressureSwitch1", 49, 1, 1.0, 0.0, 0.0, 1.0),
     Scaled("AirConditionPressureSwitch2", 50, 1, 1.0, 0.0, 0.0, 1.0),
     Plain("GearShiftindicator", 51, 2, 1.0, 0.0),
     Plain("DesiredGearValue", 53, 3, 1.0, 0.0),
     Plain("VehicleType", 56, 8, 1.0, 0.0)]
  }

  function Layout146(): (fields: seq<Field>)
    ensures |fields| == 22
  {
    [Plain("ConditionImmobilizer", 0, 3, 1.0, 0.0),
     Scaled("BrakePedalStatus", 3, 2, 1.0, 0.0, -1.0, 2.0),
     Scaled("ClutchPedalStatus", 5, 1, 1.0, 0.0, 0.0, 1.0),
     Scaled("GearEngagedStatus", 6, 2, 2.0, 0.0, 0.0, 1.0),
     Scaled("ActualAccPedal", 8, 8, 0.39063, 0.0, 0.0, 99.6094),
     Scaled("EngineThrottlePosition", 16, 8, 0.39063, 0.0, 0.0, 99.2),
     Scaled("IndicatedEngineTorque", 24, 8, 0.39063, 0.0, 0.0, 99.6094),
     Scaled("EngineFrictionTorque", 32, 8, 0.39063, 0.0, 0.0, 99.6094),
     Scaled("EngineActualTorque", 40, 8, 0.39063, 0.0, 0.0, 99.6094),
     Plain("CruiseControlOn_Off", 48, 1, 1.0, 0.0),
     Plain("SpeedLimiterOn_Off", 49, 1, 1.0, 0.0),
     Plain("conditionCruisControlLamp", 50, 1, 1.0, 0.0),
     Scaled("EngineFuleCutOff", 51, 1, 1.0, 0.0, 0.0, 1.0),
     Scaled("ConditionCatalystHeatingActivated", 52, 1, 1.0, 0.0, 0.0, 1.0),
     Scaled("ACCompressorStatus", 53, 1, 1.0, 0.0, 0.0, 1.0),
     Scaled("ConditionMainRelay", 54, 1, 1.0, 0.0, 0.0, 1.0),
     Plain("Reserve", 55, 1, 1.0, 0.0),
     Plain("TCU_GearShiftPosition", 0, 4, 1.0, 0.0),
     Plain("Reserve", 60, 1, 1.0, 0.0),
     Plain("Reserve", 61, 1, 1.0, 0.0),
     Plain("Reserve", 62, 1, 1.0, 0.0),
     Plain("Reserve", 63, 1, 1.0, 0.0)]
  }

  function Layout147(): (fields: seq<Field>)
    ensures |fields| == 5
  {
    [Plain("distance", 0, 32, 1.0, 0.0),
     Plain("Reserve", 32, 8, 1.0, 0.0),
     Plain("Reserve", 40, 8, 1.0, 0.0),
     Scaled("VirtualAccPedal", 48, 8, 0.39063, 0.0, 0.0, 99.2),
     Scaled("IntakeAirTemperature", 56, 8, 0.75, -48.0, 48.0, 191.5)]
  }

  function Layout148(): (fields: seq<Field>)
    ensures |fields| == 6
  {
    [Plain("DesiredSpeed", 0, 16, 0.125, 0.0),
     Scaled("OilTemperature(TCU)", 16, 8, 1.0, -40.0, 40.0, 254.0),
     Scaled("AmbientAirTemperature", 24, 8, 0.5, -40.0, 40.0, 126.5),
     Plain("EMS_DTC", 32, 16, 1.0, 0.0),
     Plain("ABS_DTC", 48, 8, 1.0, 0.0),
     Plain("BCM_DTC", 56, 8, 1.0, 0.0)]
  }

  function Layout149(): (fields: seq<Field>)
    ensures |fields| == 8
  {
    [Plain("ACU_DTC", 0, 8, 1.0, 0.0),
     Plain("ESC_DTC", 8, 8, 1.0, 0.0),
     Plain("ICN_DTC", 16, 8, 1.0, 0.0),
     Plain("EPS_DTC", 24, 8, 1.0, 0.0),
     Plain("CAS_DTC", 32, 8, 1.0, 0.0),
     Plain("FCM/FN_DTC", 40, 8, 1.0, 0.0),
     Plain("ICU_DTC", 48, 8, 1.0, 0.0),
     Plain("Reserve_DTC", 56, 8, 1.0, 0.0)]
  }

  function Layout150(): (fields: seq<Field>)
    ensures |fields| == 4
  {
    [Scaled("Sensor1", 0, 16, 0.1, 0.0, 0.0, 1370.0),
     Scaled("Sensor2", 16, 16, 0.1, 0.0, 0.0, 1370.0),
     Scaled("Sensor3", 32, 16, 0.1, 0.0, 0.0, 1370.0),
     Scaled("Sensor4", 48, 16, 0.1, 0.0, 0.0, 1370.0)]
  }

  function Layout151(): (fields: seq<Field>)
    ensures |fields| == 4
  {
    [Scaled("Sensor5", 0, 16, 0.1, 0.0, 0.0, 1370.0),
     Scaled("Sensor6", 16, 16, 0.1, 0.0, 0.0, 1370.0),
     Scaled("Sensor7", 32, 16, 0.1, 0.0, 0.0, 1370.0),
     Scaled("Sensor8", 48, 16, 1.0, 0.0, 0.0, 65535.0)]
  }

  function Layout152(): (fields: seq<Field>)
    ensures |fields| == 4
  {
    [Scaled("Sensor9", 0, 16, 1.0, 0.0, 0.0, 65535.0),
     Scaled("Sensor10", 16, 16, 1.0, 0.0, 0.0, 65535.0),
     Scaled("Sensor11", 32, 16, 1.0, 0.0, 0.0, 65535.0),
     Scaled("Sensor12", 48, 16, 0.01, 0.0, 0.0, 10.0)]
  }

  function Layout153(): (fields: seq<Field>)
    ensures |fields| == 4
  {
    [Scaled("Sensor13", 0, 16, 0.01, 0.0, 0.0, 10.0),
     Scaled("Sensor14", 16, 16, 0.01, 0.0, 0.0, 10.0),
     Scaled("Sensor15", 32, 16, 0.01, 0.0, 0.0, 10.0),
     Scaled("Sensor16", 48, 16, 0.01, -10.0, 10.0, 20.0)]
  }

  function Layout154(): (fields: seq<Field>)
    ensures |fields| == 3
  {
    [Scaled("Sensor17", 0, 16, 0.01, -10.0, 10.0, 20.0),
     Scaled("Sensor18", 16, 16, 0.01, 0.0, 0.0, 20.0),
     Scaled("Sensor19", 32, 16, 0.01, 0.0, 0.0, 20.0)]
  }

  function Layout(id: uint16): seq<Field> {
    match id
    case 145 => Layout145()
    case 146 => Layout146()
    case 147 => Layout147()
    case 148 => Layout148()
    case 149 => Layout149()
    case 150 => Layout150()
    case 151 => Layout151()
    case 152 => Layout152()
    case 153 => Layout153()
    case 154 => Layout154()
    case _ => []
  }

  /** A number times a factor, plus an offset, to two decimals. */
  function Linear(raw: nat, factor: real, offset: real): real {
    Round(raw as real * factor + offset)
  }

  function Cut(x: real, cap: real): real {
    if x > cap then cap else Round(x)
  }

  function Rescaled(raw: nat, factor: real, offset: real, shift: real, span: real): real {
    if span == 0.0 then 0.0 else Round((raw as real * factor + offset + shift) / span)
  }

  /** What a receiver should see of the signal `f` in the payload `number`. */
  function Reading(f: Field, number: nat): IoElement {
    var raw := Slice(number, f.low, f.width);
    match f
    case Plain(name, _, _, factor, offset) => IoElement(name, Linear(raw, factor, offset), 1000.0)
    case Scaled(name, _, _, factor, offset, shift, span) =>
      IoElement(name, Linear(raw, factor, offset), Rescaled(raw, factor, offset, shift, span))
    case Capped(name, _, _, factor, offset, shift, span, cap) =>
      IoElement(name, Cut(raw as real * factor + offset, cap), Rescaled(raw, factor, offset, shift, span))
  }

  function Readings(fields: seq<Field>, number: nat): (es: seq<IoElement>)
    ensures |es| == |fields| && forall i | 0 <= i < |fields| :: es[i] == Reading(fields[i], number)
  {
    seq(|fields|, i requires 0 <= i < |fields| => Reading(fields[i], number))
  }

  // ---------------------------------------------------------------- runs of bits

  lemma Multiple(d: int, k: int, r: int)
    requires d > 0 && d * k == r && -d < r < d
    ensures k == 0
  {
    assert k >= 1 ==> d * (k - 1) >= 0;
    assert k <= -1 ==> d * (-k - 1) >= 0;
  }

  lemma QuotientIs(n: nat, d: nat, q: nat, r: nat)
    requires n == d * q + r && r < d
    ensures n / d == q && n % d == r
  {
    var q', r' := n / d, n % d;
    assert n == d * q' + r';
    assert d * (q' - q) == d * q' - d * q;
    Multiple(d, q' - q, r - r');
  }

  lemma DivideTwice(n: nat, p: nat)
    requires p > 0
    ensures n / (2 * p) == n / p / 2
  {
    var q, r := n / p, n % p;
    assert n == p * q + r;
    assert q == 2 * (q / 2) + q % 2;
    assert p * q == (2 * p) * (q / 2) + p * (q % 2);
    assert q % 2 == 0 || q % 2 == 1;
    QuotientIs(n, 2 * p, q / 2, p * (q % 2) + r);
  }

  lemma PowerStep(n: nat)
    requires n > 0
    ensures Pow2(n) == 2 * Pow2(n - 1)
  {
  }

  lemma {:induction false} DividePowers(n: nat, a: nat, b: nat)
    ensures n / Pow2(a + b) == n / Pow2(a) / Pow2(b)
    decreases b
  {
    hide Pow2;
    if b == 0 {
      NoBits();
    } else {
      DividePowers(n, a, b - 1);
      PowerStep(a + b);
      PowerStep(b);
      DivideTwice(n, Pow2(a + b - 1));
      DivideTwice(n / Pow2(a), Pow2(b - 1));
    }
  }

  lemma {:induction false} PowersMultiply(a: nat, b: nat)
    ensures Pow2(a + b) == Pow2(a) * Pow2(b)
    decreases b
  {
    if b == 0 {
    } else {
      PowersMultiply(a, b - 1);
    }
  }

  lemma PowersOfBytes()
    ensures Pow2(8) == 0x100 && Pow2(16) == 0x1_0000 && Pow2(32) == 0x1_0000_0000
  {
    assert Pow2(4) == 16;
    PowersMultiply(4, 4);
    PowersMultiply(8, 8);
    PowersMultiply(16, 16);
  }

  /** Shifting a number by whole bytes drops its last bytes. */
  lemma {:induction false} DropBytes(s: seq<uint8>, i: nat)
    requires i <= |s|
    ensures BigEndian(s) / Pow2(8 * i) == BigEndian(s[..|s| - i])
    decreases i
  {
    hide Pow2, BigEndian;
    if i == 0 {
      assert s[..|s|] == s;
      NoBits();
    } else {
      DropBytes(s, i - 1);
      DividePowers(BigEndian(s), 8 * (i - 1), 8);
      PowersOfBytes();
      DropByte(s[..|s| - (i - 1)]);
      assert s[..|s| - (i - 1)][..|s| - i] == s[..|s| - i];
    }
  }

  lemma DropByte(s: seq<uint8>)
    requires s != []
    ensures BigEndian(s) / 0x100 == BigEndian(s[..|s| - 1])
  {
    var last := s[|s| - 1];
    assert BigEndian(s) == BigEndian(s[..|s| - 1]) * 0x100 + last;
  }

  lemma NoBits()
    ensures Pow2(0) == 1
  {
  }

  /** Bits of the last byte of a number. */
  lemma LastByte(q: nat, b: nat, j: nat, w: nat)
    requires j + w <= 8
    ensures (q * 0x100 + b) / Pow2(j) % Pow2(w) == b / Pow2(j) % Pow2(w)
  {
    hide Pow2;
    PowersMultiply(j, w);
    PowersMultiply(j + w, 8 - j - w);
    PowersOfBytes();
    LastDigits(q, b, Pow2(j), Pow2(w), Pow2(8 - j - w));
  }

  lemma LastDigits(q: nat, b: nat, d: nat, m: nat, r: nat)
    requires d > 0 && m > 0 && d * m * r == 0x100
    ensures (q * 0x100 + b) / d % m == b / d % m
  {
    var k := q * r;
    Regroup(q, d, m, r);
    Shifted(d, m * k, b);
    Reduced(m, k, b / d);
  }

  lemma Regroup(q: nat, d: nat, m: nat, r: nat)
    ensures q * (d * m * r) == d * (m * (q * r))
  {
  }

  lemma Shifted(d: nat, k: nat, b: nat)
    requires d > 0
    ensures (d * k + b) / d == k + b / d
  {
    assert d * (k + b / d) + b % d == d * k + (d * (b / d) + b % d);
    QuotientIs(d * k + b, d, k + b / d, b % d);
  }

  lemma Reduced(m: nat, k: nat, b: nat)
    requires m > 0
    ensures (m * k + b) % m == b % m
  {
    assert m * (k + b / m) + b % m == m * k + (m * (b / m) + b % m);
    QuotientIs(m * k + b, m, k + b / m, b % m);
  }

  lemma TopByte(v: seq<uint8>, i: nat)
    requires |v| == 8 && i < 8
    ensures Uint64(v) / Pow2(8 * i) == BigEndian(v[..7 - i]) * 0x100 + v[7 - i]
  {
    hide Pow2, Uint64;
    Uint64Is(v);
    DropBytes(v, i);
    var t := v[..8 - i];
    assert t[..|t| - 1] == v[..7 - i];
  }

  /** Bits `j` to `j + w` of byte `i`, counting both from the lowest. */
  lemma ByteSlice(v: seq<uint8>, i: nat, j: nat, w: nat)
    requires |v| == 8 && i < 8 && j + w <= 8
    ensures Slice(Uint64(v), 8 * i + j, w) == v[7 - i] / Pow2(j) % Pow2(w)
  {
    hide Pow2, Uint64, BigEndian;
    TopByte(v, i);
    DividePowers(Uint64(v), 8 * i, j);
    LastByte(BigEndian(v[..7 - i]), v[7 - i], j, w);
  }

  lemma WholeByte(v: seq<uint8>, i: nat)
    requires |v| == 8 && i < 8
    ensures Slice(Uint64(v), 8 * i, 8) == v[7 - i]
  {
    hide Pow2, Uint64;
    ByteSlice(v, i, 0, 8);
    NoBits();
    PowersOfBytes();
    var b: nat := v[7 - i];
    assert b / 1 % 0x100 == b;
  }

  lemma WordSlice(v: seq<uint8>, i: nat)
    requires |v| == 8 && i < 4
    ensures Slice(Uint64(v), 16 * i, 16) == Uint16([v[6 - 2 * i], v[7 - 2 * i]])
  {
    hide Pow2, Uint64, Uint16, BigEndian;
    Uint64Is(v);
    DropBytes(v, 2 * i);
    PowersOfBytes();
    var front, word := v[..6 - 2 * i], [v[6 - 2 * i], v[7 - 2 * i]];
    assert v[..8 - 2 * i] == front + word;
    BigEndianCat(front, word);
    Uint16Is(word);
    LastWord(BigEndian(front), Uint16(word));
  }

  lemma LastWord(q: nat, w: uint16)
    ensures (q * 0x1_0000 + w) % 0x1_0000 == w
  {
  }

  lemma LongSlice(v: seq<uint8>)
    requires |v| == 8
    ensures Slice(Uint64(v), 0, 32) == Uint32([v[4], v[5], v[6], v[7]])
  {
    hide Pow2, Uint32, PutUint32;
    NoBits();
    PowersOfBytes();
    assert v[4..] == [v[4], v[5], v[6], v[7]];
    assert Uint64(v) == Uint32(v[..4]) * 0x1_0000_0000 + Uint32(v[4..]);
  }

  // ---------------------------------------------------------------- the decoder reads what the table says

  lemma SmallPowers()
    ensures Pow2(0) == 1 && Pow2(1) == 2 && Pow2(2) == 4 && Pow2(3) == 8 && Pow2(4) == 16 && Pow2(5) == 32
            && Pow2(6) == 64 && Pow2(7) == 128
  {
    PowersMultiply(4, 1);
    PowersMultiply(4, 2);
    PowersMultiply(4, 3);
  }

  lemma LinearIs(raw: nat, factor: real, offset: real)
    ensures Linear(raw, factor, offset) == Signal(raw, factor, offset)
  {
    hide Round;
  }

  lemma RescaledIs(raw: nat, factor: real, offset: real, shift: real, span: real)
    requires span != 0.0
    ensures Rescaled(raw, factor, offset, shift, span) == Normal(raw, factor, offset, shift, span)
  {
    hide Round;
  }

  lemma BitSlice(v: seq<uint8>, i: nat, j: nat)
    requires |v| == 8 && i < 8 && j < 8
    ensures Slice(Uint64(v), 8 * i + j, 1) == GetBit(v[7 - i], j)
  {
    hide Pow2, Uint64, Slice;
    SmallPowers();
    ByteSlice(v, i, j, 1);
  }

  /** The bits of the last byte, as element 146 groups them. */
  lemma PedalSlices(v: seq<uint8>)
    requires |v| == 8
    ensures Slice(Uint64(v), 0, 3) == v[7] % 8 && Slice(Uint64(v), 3, 2) == v[7] / 8 % 4
            && Slice(Uint64(v), 6, 2) == v[7] / 64 && Slice(Uint64(v), 0, 4) == v[7] % 16
  {
    hide Pow2, Uint64, Slice;
    SmallPowers();
    ByteSlice(v, 0, 0, 3);
    ByteSlice(v, 0, 3, 2);
    ByteSlice(v, 0, 6, 2);
    ByteSlice(v, 0, 0, 4);
  }

  /** The bits of the second byte, as element 145 groups them. */
  lemma GearSlices(v: seq<uint8>)
    requires |v| == 8
    ensures Slice(Uint64(v), 51, 2) == v[1] / 8 % 4 && Slice(Uint64(v), 53, 3) == v[1] / 32
  {
    hide Pow2, Uint64, Slice;
    SmallPowers();
    ByteSlice(v, 6, 3, 2);
    ByteSlice(v, 6, 5, 3);
  }

  lemma PlainReading(f: Field, number: nat)
    requires f.Plain?
    ensures var raw := Slice(number, f.low, f.width);
            Reading(f, number) == IoElement(f.name, Signal(raw, f.factor, f.offset), NO_NORMAL)
  {
    hide Slice, Linear, Signal;
    LinearIs(Slice(number, f.low, f.width), f.factor, f.offset);
  }

  lemma ScaledReading(f: Field, number: nat)
    requires f.Scaled? && f.span != 0.0
    ensures var raw := Slice(number, f.low, f.width);
            Reading(f, number)
            == IoElement(f.name, Signal(raw, f.factor, f.offset), Normal(raw, f.factor, f.offset, f.shift, f.span))
  {
    hide Slice, Linear, Signal, Rescaled, Normal;
    LinearIs(Slice(number, f.low, f.width), f.factor, f.offset);
    RescaledIs(Slice(number, f.low, f.width), f.factor, f.offset, f.shift, f.span);
  }

  lemma SpeedReading(number: nat)
    ensures var raw := Slice(number, 0, 16);
            Reading(Capped("VehicleSpeed", 0, 16, 0.125, 0.0, 0.0, 8189.0, 200.0), number)
            == IoElement("VehicleSpeed", Speed(raw), Normal(raw, 0.125, 0.0, 0.0, 8189.0))
  {
    hide Round, Slice, Rescaled, Normal;
    RescaledIs(Slice(number, 0, 16), 0.125, 0.0, 0.0, 8189.0);
  }

  lemma UnitNormal(n: nat)
    ensures Normal(n, 1.0, 0.0, 0.0, 1.0) == Signal(n, 1.0, 0.0)
            && Normal(n, 2.0, 0.0, 0.0, 1.0) == Signal(n * 2, 1.0, 0.0) == Signal(n, 2.0, 0.0)
  {
    hide Round;
  }

  lemma TenthsReading(n: nat)
    ensures Round(Round(Signal(n, 1.0, 0.0) / 10.0)) == Signal(n, 0.1, 0.0)
    ensures Round(Round(Signal(n, 1.0, 0.0) / 10.0) / 1370.0) == Normal(n, 0.1, 0.0, 0.0, 1370.0)
  {
    SignalWhole(n);
    FloorHalf(n * 10);
    assert (n * 10) as real == n as real * 10.0;
    assert Round(n as real / 10.0) == n as real / 10.0;
    hide Round;
    assert n as real * 0.1 + 0.0 == n as real / 10.0;
    assert Signal(n, 0.1, 0.0) == Round(n as real / 10.0);
  }

  /** Element `i` of those that the decoder makes is what the table says. */
  predicate Agrees(id: uint16, v: seq<uint8>, i: nat)
    requires |v| == 8
  {
    var es := DecodeElement(3, Element(id, v));
    i < |Layout(id)| == |es| && Reading(Layout(id)[i], Uint64(v)) == es[i]
  }

  lemma AgreesWhen(id: uint16, v: seq<uint8>, i: nat)
    requires |v| == 8 && 145 <= id <= 154 && i < |Layout(id)|
    ensures |Layout(id)| == Expand(id) == |EightByteNames(id)| == |EightByteValues(id, v)| == |EightByteNormals(id, v)|
    ensures Agrees(id, v, i)
       <==> Reading(Layout(id)[i], Uint64(v))
            == IoElement(EightByteNames(id)[i], EightByteValues(id, v)[i], EightByteNormals(id, v)[i])
  {
    hide Reading, EightByteNames, EightByteValues, EightByteNormals, Uint64, Layout, Expand;
    LayoutLength(id);
    NamesExpand(id);
    ValuesExpand(id, v);
  }

  lemma LayoutLength(id: uint16)
    requires 145 <= id <= 154
    ensures |Layout(id)| == Expand(id)
  {
  }


  lemma Parts145(v: seq<uint8>)
    requires |v| == 8
    ensures Layout(145) == Layout145() && EightByteNames(145) == Names145()
    ensures EightByteValues(145, v) == Values145(v) && EightByteNormals(145, v) == Normals145(v)
  {
    hide Layout145, Names145, Values145, Normals145;
  }

  lemma Engine145(v: seq<uint8>, i: nat)
    requires |v| == 8 && 0 <= i < 4
    ensures Agrees(145, v, i)
  {
    hide Round, Pow2, Uint64, Uint16, Uint32, Slice, Reading, Signal, Normal, Speed, GetBit, Agrees, Layout,
         EightByteNames, EightByteValues, EightByteNormals;
    Parts145(v);
    AgreesWhen(145, v, i);
    var f, number := Layout145()[i], Uint64(v);
    match i
    case 0 =>
      WordSlice(v, 0);
      SpeedReading(number);
    case 1 =>
      WordSlice(v, 1);
      ScaledReading(f, number);
    case 2 =>
      WholeByte(v, 4);
      ScaledReading(f, number);
    case _ =>
      WholeByte(v, 5);
      PlainReading(f, number);
  }

  lemma Switches145(v: seq<uint8>, i: nat)
    requires |v| == 8 && 4 <= i < 10
    ensures Agrees(145, v, i)
  {
    hide Round, Pow2, Uint64, Uint16, Uint32, Slice, Reading, Signal, Normal, Speed, GetBit, Agrees, Layout,
         EightByteNames, EightByteValues, EightByteNormals;
    Parts145(v);
    AgreesWhen(145, v, i);
    var f, number := Layout145()[i], Uint64(v);
    match i
    case 4 =>
      BitSlice(v, 6, 0);
      ScaledReading(f, number);
      UnitNormal(Slice(number, 48, 1));
    case 5 =>
      BitSlice(v, 6, 1);
      ScaledReading(f, number);
      UnitNormal(Slice(number, 49, 1));
    case 6 =>
      BitSlice(v, 6, 2);
      ScaledReading(f, number);
      UnitNormal(Slice(number, 50, 1));
    case 7 =>
      GearSlices(v);
      PlainReading(f, number);
    case 8 =>
      GearSlices(v);
      PlainReading(f, number);
    case _ =>
      WholeByte(v, 7);
      PlainReading(f, number);
  }

  lemma Field145(v: seq<uint8>, i: nat)
    requires |v| == 8 && i < 10
    ensures Agrees(145, v, i)
  {
    hide Agrees;
    if i < 4 {
      Engine145(v, i);
    } else {
      Switches145(v, i);
    }
  }

  lemma Parts146(v: seq<uint8>)
    requires |v| == 8
    ensures Layout(146) == Layout146() && EightByteNames(146) == Names146()
    ensures EightByteValues(146, v) == Values146(v) && EightByteNormals(146, v) == Normals146(v)
  {
    hide Layout146, Names146, Values146, Normals146;
  }

  lemma Pedals146(v: seq<uint8>, i: nat)
    requires |v| == 8 && 0 <= i < 4
    ensures Agrees(146, v, i)
  {
    hide Round, Pow2, Uint64, Uint16, Uint32, Slice, Reading, Signal, Normal, Speed, GetBit, Agrees, Layout,
         EightByteNames, EightByteValues, EightByteNormals;
    Parts146(v);
    AgreesWhen(146, v, i);
    var f, number := Layout146()[i], Uint64(v);
    match i
    case 0 =>
      PedalSlices(v);
      PlainReading(f, number);
    case 1 =>
      PedalSlices(v);
      ScaledReading(f, number);
    case 2 =>
      BitSlice(v, 0, 5);
      ScaledReading(f, number);
      UnitNormal(Slice(number, 5, 1));
    case _ =>
      PedalSlices(v);
      ScaledReading(f, number);
      UnitNormal(Slice(number, 6, 2));
  }

  lemma Torques146(v: seq<uint8>, i: nat)
    requires |v| == 8 && 4 <= i < 9
    ensures Agrees(146, v, i)
  {
    hide Round, Pow2, Uint64, Uint16, Uint32, Slice, Reading, Signal, Normal, Speed, GetBit, Agrees, Layout,
         EightByteNames, EightByteValues, EightByteNormals;
    Parts146(v);
    AgreesWhen(146, v, i);
    var f, number := Layout146()[i], Uint64(v);
    match i
    case 4 =>
      WholeByte(v, 1);
      ScaledReading(f, number);
    case 5 =>
      WholeByte(v, 2);
      ScaledReading(f, number);
    case 6 =>
      WholeByte(v, 3);
      ScaledReading(f, number);
    case 7 =>
      WholeByte(v, 4);
      ScaledReading(f, number);
    case _ =>
      WholeByte(v, 5);
      ScaledReading(f, number);
  }

  lemma Lamps146(v: seq<uint8>, i: nat)
    requires |v| == 8 && 9 <= i < 13
    ensures Agrees(146, v, i)
  {
    hide Round, Pow2, Uint64, Uint16, Uint32, Slice, Reading, Signal, Normal, Speed, GetBit, Agrees, Layout,
         EightByteNames, EightByteValues, EightByteNormals;
    Parts146(v);
    AgreesWhen(146, v, i);
    var f, number := Layout146()[i], Uint64(v);
    match i
    case 9 =>
      BitSlice(v, 6, 0);
      PlainReading(f, number);
    case 10 =>
      BitSlice(v, 6, 1);
      PlainReading(f, number);
    case 11 =>
      BitSlice(v, 6, 2);
      PlainReading(f, number);
    case _ =>
      BitSlice(v, 6, 3);
      ScaledReading(f, number);
      UnitNormal(Slice(number, 51, 1));
  }

  lemma Relays146(v: seq<uint8>, i: nat)
    requires |v| == 8 && 13 <= i < 17
    ensures Agrees(146, v, i)
  {
    hide Round, Pow2, Uint64, Uint16, Uint32, Slice, Reading, Signal, Normal, Speed, GetBit, Agrees, Layout,
         EightByteNames, EightByteValues, EightByteNormals;
    Parts146(v);
    AgreesWhen(146, v, i);
    var f, number := Layout146()[i], Uint64(v);
    match i
    case 13 =>
      BitSlice(v, 6, 4);
      ScaledReading(f, number);
      UnitNormal(Slice(number, 52, 1));
    case 14 =>
      BitSlice(v, 6, 5);
      ScaledReading(f, number);
      UnitNormal(Slice(number, 53, 1));
    case 15 =>
      BitSlice(v, 6, 6);
      ScaledReading(f, number);
      UnitNormal(Slice(number, 54, 1));
    case _ =>
      BitSlice(v, 6, 7);
      PlainReading(f, number);
  }

  lemma Reserves146(v: seq<uint8>, i: nat)
    requires |v| == 8 && 17 <= i < 22
    ensures Agrees(146, v, i)
  {
    hide Round, Pow2, Uint64, Uint16, Uint32, Slice, Reading, Signal, Normal, Speed, GetBit, Agrees, Layout,
         EightByteNames, EightByteValues, EightByteNormals;
    Parts146(v);
    AgreesWhen(146, v, i);
    var f, number := Layout146()[i], Uint64(v);
    match i
    case 17 =>
      PedalSlices(v);
      PlainReading(f, number);
    case 18 =>
      BitSlice(v, 7, 4);
      PlainReading(f, number);
    case 19 =>
      BitSlice(v, 7, 5);
      PlainReading(f, number);
    case 20 =>
      BitSlice(v, 7, 6);
      PlainReading(f, number);
    case _ =>
      BitSlice(v, 7, 7);
      PlainReading(f, number);
  }

  lemma Field146(v: seq<uint8>, i: nat)
    requires |v| == 8 && i < 22
    ensures Agrees(146, v, i)
  {
    hide Agrees;
    if i < 4 {
      Pedals146(v, i);
    } else if i < 9 {
      Torques146(v, i);
    } else if i < 13 {
      Lamps146(v, i);
    } else if i < 17 {
      Relays146(v, i);
    } else {
      Reserves146(v, i);
    }
  }

  lemma Parts147(v: seq<uint8>)
    requires |v| == 8
    ensures Layout(147) == Layout147() && EightByteNames(147) == Names147()
    ensures EightByteValues(147, v) == Values147(v) && EightByteNormals(147, v) == Normals147(v)
  {
    hide Layout147, Names147, Values147, Normals147;
  }

  lemma Field147(v: seq<uint8>, i: nat)
    requires |v| == 8 && i < 5
    ensures Agrees(147, v, i)
  {
    hide Round, Pow2, Uint64, Uint16, Uint32, Slice, Reading, Signal, Normal, Speed, GetBit, Agrees, Layout,
         EightByteNames, EightByteValues, EightByteNormals;
    Parts147(v);
    AgreesWhen(147, v, i);
    var f, number := Layout147()[i], Uint64(v);
    match i
    case 0 =>
      LongSlice(v);
      PlainReading(f, number);
      SignalWhole(Slice(number, 0, 32));
      RoundWhole(Slice(number, 0, 32));
    case 1 =>
      WholeByte(v, 4);
      PlainReading(f, number);
    case 2 =>
      WholeByte(v, 5);
      PlainReading(f, number);
    case 3 =>
      WholeByte(v, 6);
      ScaledReading(f, number);
    case _ =>
      WholeByte(v, 7);
      ScaledReading(f, number);
  }

  lemma Parts148(v: seq<uint8>)
    requires |v| == 8
    ensures Layout(148) == Layout148() && EightByteNames(148) == Names148()
    ensures EightByteValues(148, v) == Values148(v) && EightByteNormals(148, v) == Normals148(v)
  {
    hide Layout148, Names148, Values148, Normals148;
  }

  lemma Field148(v: seq<uint8>, i: nat)
    requires |v| == 8 && i < 6
    ensures Agrees(148, v, i)
  {
    hide Round, Pow2, Uint64, Uint16, Uint32, Slice, Reading, Signal, Normal, Speed, GetBit, Agrees, Layout,
         EightByteNames, EightByteValues, EightByteNormals;
    Parts148(v);
    AgreesWhen(148, v, i);
    var f, number := Layout148()[i], Uint64(v);
    match i
    case 0 =>
      WordSlice(v, 0);
      PlainReading(f, number);
    case 1 =>
      WholeByte(v, 2);
      ScaledReading(f, number);
    case 2 =>
      WholeByte(v, 3);
      ScaledReading(f, number);
    case 3 =>
      WordSlice(v, 2);
      PlainReading(f, number);
      SignalWhole(Slice(number, 32, 16));
      RoundWhole(Slice(number, 32, 16));
    case 4 =>
      WholeByte(v, 6);
      PlainReading(f, number);
    case _ =>
      WholeByte(v, 7);
      PlainReading(f, number);
  }

  lemma Parts149(v: seq<uint8>)
    requires |v| == 8
    ensures Layout(149) == Layout149() && EightByteNames(149) == Names149()
    ensures EightByteValues(149, v) == Values149(v) && EightByteNormals(149, v) == Normals149(v)
  {
    hide Layout149, Names149, Values149, Normals149;
  }

  lemma Field149(v: seq<uint8>, i: nat)
    requires |v| == 8 && i < 8
    ensures Agrees(149, v, i)
  {
    hide Round, Pow2, Uint64, Uint16, Uint32, Slice, Reading, Signal, Normal, Speed, GetBit, Agrees, Layout,
         EightByteNames, EightByteValues, EightByteNormals;
    Parts149(v);
    AgreesWhen(149, v, i);
    var f, number := Layout149()[i], Uint64(v);
    match i
    case 0 =>
      WholeByte(v, 0);
      PlainReading(f, number);
    case 1 =>
      WholeByte(v, 1);
      PlainReading(f, number);
    case 2 =>
      WholeByte(v, 2);
      PlainReading(f, number);
    case 3 =>
      WholeByte(v, 3);
      PlainReading(f, number);
    case 4 =>
      WholeByte(v, 4);
      PlainReading(f, number);
    case 5 =>
      WholeByte(v, 5);
      PlainReading(f, number);
    case 6 =>
      WholeByte(v, 6);
      PlainReading(f, number);
    case _ =>
      WholeByte(v, 7);
      PlainReading(f, number);
  }

  lemma Parts150(v: seq<uint8>)
    requires |v| == 8
    ensures Layout(150) == Layout150() && EightByteNames(150) == Names150()
    ensures EightByteValues(150, v) == Values150(v) && EightByteNormals(150, v) == Normals150(v)
  {
    hide Layout150, Names150, Values150, Normals150;
  }

  lemma Field150(v: seq<uint8>, i: nat)
    requires |v| == 8 && i < 4
    ensures Agrees(150, v, i)
  {
    hide Round, Pow2, Uint64, Uint16, Uint32, Slice, Reading, Signal, Normal, Speed, GetBit, Agrees, Layout,
         EightByteNames, EightByteValues, EightByteNormals;
    Parts150(v);
    AgreesWhen(150, v, i);
    var f, number := Layout150()[i], Uint64(v);
    match i
    case 0 =>
      WordSlice(v, 0);
      ScaledReading(f, number);
      TenthsReading(Slice(number, 0, 16));
    case 1 =>
      WordSlice(v, 1);
      ScaledReading(f, number);
    case 2 =>
      WordSlice(v, 2);
      ScaledReading(f, number);
    case _ =>
      WordSlice(v, 3);
      ScaledReading(f, number);
  }

  lemma Parts151(v: seq<uint8>)
    requires |v| == 8
    ensures Layout(151) == Layout151() && EightByteNames(151) == Names151()
    ensures EightByteValues(151, v) == Values151(v) && EightByteNormals(151, v) == Normals151(v)
  {
    hide Layout151, Names151, Values151, Normals151;
  }

  lemma Field151(v: seq<uint8>, i: nat)
    requires |v| == 8 && i < 4
    ensures Agrees(151, v, i)
  {
    hide Round, Pow2, Uint64, Uint16, Uint32, Slice, Reading, Signal, Normal, Speed, GetBit, Agrees, Layout,
         EightByteNames, EightByteValues, EightByteNormals;
    Parts151(v);
    AgreesWhen(151, v, i);
    var f, number := Layout151()[i], Uint64(v);
    match i
    case 0 =>
      WordSlice(v, 0);
      ScaledReading(f, number);
    case 1 =>
      WordSlice(v, 1);
      ScaledReading(f, number);
    case 2 =>
      WordSlice(v, 2);
      ScaledReading(f, number);
    case _ =>
      WordSlice(v, 3);
      ScaledReading(f, number);
  }

  lemma Parts152(v: seq<uint8>)
    requires |v| == 8
    ensures Layout(152) == Layout152() && EightByteNames(152) == Names152()
    ensures EightByteValues(152, v) == Values152(v) && EightByteNormals(152, v) == Normals152(v)
  {
    hide Layout152, Names152, Values152, Normals152;
  }

  lemma Field152(v: seq<uint8>, i: nat)
    requires |v| == 8 && i < 4
    ensures Agrees(152, v, i)
  {
    hide Round, Pow2, Uint64, Uint16, Uint32, Slice, Reading, Signal, Normal, Speed, GetBit, Agrees, Layout,
         EightByteNames, EightByteValues, EightByteNormals;
    Parts152(v);
    AgreesWhen(152, v, i);
    var f, number := Layout152()[i], Uint64(v);
    match i
    case 0 =>
      WordSlice(v, 0);
      ScaledReading(f, number);
    case 1 =>
      WordSlice(v, 1);
      ScaledReading(f, number);
    case 2 =>
      WordSlice(v, 2);
      ScaledReading(f, number);
    case _ =>
      WordSlice(v, 3);
      ScaledReading(f, number);
  }

  lemma Parts153(v: seq<uint8>)
    requires |v| == 8
    ensures Layout(153) == Layout153() && EightByteNames(153) == Names153()
    ensures EightByteValues(153, v) == Values153(v) && EightByteNormals(153, v) == Normals153(v)
  {
    hide Layout153, Names153, Values153, Normals153;
  }

  lemma Field153(v: seq<uint8>, i: nat)
    requires |v| == 8 && i < 4
    ensures Agrees(153, v, i)
  {
    hide Round, Pow2, Uint64, Uint16, Uint32, Slice, Reading, Signal, Normal, Speed, GetBit, Agrees, Layout,
         EightByteNames, EightByteValues, EightByteNormals;
    Parts153(v);
    AgreesWhen(153, v, i);
    var f, number := Layout153()[i], Uint64(v);
    match i
    case 0 =>
      WordSlice(v, 0);
      ScaledReading(f, number);
    case 1 =>
      WordSlice(v, 1);
      ScaledReading(f, number);
    case 2 =>
      WordSlice(v, 2);
      ScaledReading(f, number);
    case _ =>
      WordSlice(v, 3);
      ScaledReading(f, number);
  }

  lemma Parts154(v: seq<uint8>)
    requires |v| == 8
    ensures Layout(154) == Layout154() && EightByteNames(154) == Names154()
    ensures EightByteValues(154, v) == Values154(v) && EightByteNormals(154, v) == Normals154(v)
  {
    hide Layout154, Names154, Values154, Normals154;
  }

  lemma Field154(v: seq<uint8>, i: nat)
    requires |v| == 8 && i < 3
    ensures Agrees(154, v, i)
  {
    hide Round, Pow2, Uint64, Uint16, Uint32, Slice, Reading, Signal, Normal, Speed, GetBit, Agrees, Layout,
         EightByteNames, EightByteValues, EightByteNormals;
    Parts154(v);
    AgreesWhen(154, v, i);
    var f, number := Layout154()[i], Uint64(v);
    match i
    case 0 =>
      WordSlice(v, 0);
      ScaledReading(f, number);
    case 1 =>
      WordSlice(v, 1);
      ScaledReading(f, number);
    case _ =>
      WordSlice(v, 2);
      ScaledReading(f, number);
  }

  /** Every signal of every CAN element: its name, its value and its normal value, from the payload as one number. */
  lemma SignalsRead(id: uint16, v: seq<uint8>)
    requires |v| == 8
    ensures DecodeElement(3, Element(id, v))
         == if 145 <= id <= 154 then Readings(Layout(id), Uint64(v)) else [IoElement(Itoa(id), 999.0, 1000.0)]
  {
    hide Reading, Layout, Agrees, EightByteNames, EightByteValues, EightByteNormals, Uint64, Itoa;
    if 145 <= id <= 154 {
      LayoutLength(id);
      NamesExpand(id);
      forall i: nat | i < |Layout(id)| ensures Agrees(id, v, i) {
        AnyField(id, v, i);
      }
      AllAgree(id, v);
    } else {
      OtherElement(id, v);
    }
  }

  lemma AllAgree(id: uint16, v: seq<uint8>)
    requires |v| == 8 && |Layout(id)| == |DecodeElement(3, Element(id, v))|
    requires forall i: nat | i < |Layout(id)| :: Agrees(id, v, i)
    ensures DecodeElement(3, Element(id, v)) == Readings(Layout(id), Uint64(v))
  {
    hide Reading, Layout, DecodeElement, Uint64;
    var es, rs := DecodeElement(3, Element(id, v)), Readings(Layout(id), Uint64(v));
    forall i | 0 <= i < |es| ensures es[i] == rs[i] {
      assert Agrees(id, v, i);
    }
  }

  lemma OtherElement(id: uint16, v: seq<uint8>)
    requires |v| == 8 && !(145 <= id <= 154)
    ensures DecodeElement(3, Element(id, v)) == [IoElement(Itoa(id), 999.0, 1000.0)]
  {
    hide Itoa;
    var es := DecodeEight(id, v);
    assert EightByteNames(id) == [Itoa(id)];
    assert EightByteValues(id, v) == [999.0] && EightByteNormals(id, v) == [NO_NORMAL];
    assert es == [es[0]];
  }

  lemma AnyField(id: uint16, v: seq<uint8>, i: nat)
    requires |v| == 8 && 145 <= id <= 154 && i < |Layout(id)|
    ensures Agrees(id, v, i)
  {
    hide Agrees;
    LayoutLength(id);
    match id
    case 145 => Field145(v, i);
    case 146 => Field146(v, i);
    case 147 => Field147(v, i);
    case 148 => Field148(v, i);
    case 149 => Field149(v, i);
    case 150 => Field150(v, i);
    case 151 => Field151(v, i);
    case 152 => Field152(v, i);
    case 153 => Field153(v, i);
    case 154 => Field154(v, i);
  }

}
