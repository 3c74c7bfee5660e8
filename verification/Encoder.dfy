/**
 The packet encoder of the device side: points with typed IO values are printed as a Codec 8 Extended
 packet. The loops are proved to print the frame `FrameFor(points)`, for every list of points; the round
 trip through the parser is then a property of that frame.
 */
module Encoder {
  import opened Bytes
  import opened Wire
  import opened Elements
  import opened Parser
  import opened Signals

  /** The values `numberToStream` is given: fixed-size unsigned integers. */
  datatype Number = N8(n8: uint8) | N16(n16: uint16) | N32(n32: uint32) | N64(n64: uint64)

  datatype IOElementVal = IOElementVal(id: uint16, value: Number)

  /** A point to send. Of the list `IOElements` only the length reaches the wire. */
  datatype AvlData = AvlData(
    timestamps: uint64, priority: uint8, longitude: real, latitude: real, altitude: int16, angle: uint16,
    satellites: uint8, speed: uint16, eventId: uint16, ioElements: nat, ioElementsVal: seq<IOElementVal>)

  function NumberToStream(n: Number): (s: seq<uint8>)
    ensures |s| in {1, 2, 4, 8}
  {
    match n
    case N8(b) => [b]
    case N16(w) => PutUint16(w)
    case N32(w) => PutUint32(w)
    case N64(w) => PutUint64(w)
  }

  /** Truncation toward zero, as in Go's conversion of a float to an integer. */
  function Trunc(x: real): int {
    if x >= 0.0 then x.Floor else -((-x).Floor)
  }

  function CoordinateBits(x: real): uint32 {
    Trunc(x * 10000000.0) % 0x1_0000_0000
  }

  // ---------------------------------------------------------------- the frame that is printed

  function HeadFor(p: AvlData): Head {
    Head(p.timestamps, p.priority, CoordinateBits(p.longitude), CoordinateBits(p.latitude),
         p.altitude % 0x1_0000, p.angle, p.satellites, p.speed, p.eventId)
  }

  /** The values of one width, as wire elements, in their order. */
  function Bucket(vals: seq<IOElementVal>, width: nat): (es: seq<Element>)
    ensures OfWidth(es, width) && |es| <= |vals|
  {
    if vals == [] then []
    else
      var last := vals[|vals| - 1];
      var bytes := NumberToStream(last.value);
      var front := Bucket(vals[..|vals| - 1], width);
      if |bytes| == width then front + [Element(last.id, bytes)] else front
  }

  function Buckets(vals: seq<IOElementVal>): seq<seq<Element>> {
    [Bucket(vals, 1), Bucket(vals, 2), Bucket(vals, 4), Bucket(vals, 8)]
  }

  function RecordFor(p: AvlData): Record {
    Record(HeadFor(p), p.ioElements % 0x1_0000, Buckets(p.ioElementsVal), [0, 0])
  }

  function RecordsFor(points: seq<AvlData>): (rs: seq<Record>)
    ensures |rs| == |points| && forall i | 0 <= i < |points| :: rs[i] == RecordFor(points[i])
  {
    seq(|points|, i requires 0 <= i < |points| => RecordFor(points[i]))
  }

  /** The length field counts the records and one byte more; both steps are 32-bit. */
  function FrameFor(points: seq<AvlData>): Frame {
    var rs := RecordsFor(points);
    Frame((|SerialiseRecords(rs)| % 0x1_0000_0000 + 1) % 0x1_0000_0000, rs, 0)
  }

  function MakePacket(points: seq<AvlData>): seq<uint8> {
    Serialise(FrameFor(points))
  }

  // ---------------------------------------------------------------- the encoder

  lemma ElementsAppend(es: seq<Element>, e: Element)
    ensures SerialiseElements(es + [e]) == SerialiseElements(es) + SerialiseElement(e)
  {
    hide SerialiseElement;
    if es == [] {
      assert [e][1..] == [];
      assert es + [e] == [e];
      assert SerialiseElements([e]) == SerialiseElement(e) + [];
    } else {
      assert (es + [e])[1..] == es[1..] + [e];
      ElementsAppend(es[1..], e);
    }
  }

  lemma BucketAppend(vals: seq<IOElementVal>, i: nat, width: nat)
    requires i < |vals|
    ensures var e := Element(vals[i].id, NumberToStream(vals[i].value));
            Bucket(vals[..i + 1], width) == Bucket(vals[..i], width) + (if |e.value| == width then [e] else [])
  {
    assert vals[..i + 1][..i] == vals[..i];
  }

  /** What the loop below has after `i` values: the printed elements of one width and their 16-bit count. */
  predicate BucketDone(vals: seq<IOElementVal>, i: nat, width: nat, count: uint16, stage: seq<uint8>) {
    i <= |vals|
    && count == |Bucket(vals[..i], width)| % 0x1_0000
    && stage == SerialiseElements(Bucket(vals[..i], width))
  }

  lemma BucketGrows(vals: seq<IOElementVal>, i: nat, width: nat, count: uint16, stage: seq<uint8>)
    requires i < |vals| && BucketDone(vals, i, width, count, stage)
    ensures var bytes := NumberToStream(vals[i].value);
            if |bytes| == width
            then BucketDone(vals, i + 1, width, (count + 1) % 0x1_0000, stage + (PutUint16(vals[i].id) + bytes))
            else BucketDone(vals, i + 1, width, count, stage)
  {
    hide NumberToStream, PutUint16, Bucket;
    BucketAppend(vals, i, width);
    ElementsAppend(Bucket(vals[..i], width), Element(vals[i].id, NumberToStream(vals[i].value)));
    assert Bucket(vals[..i], width) + [] == Bucket(vals[..i], width);
  }

  /** The bucket loop: each value is appended to the buffer of its width, and the 16-bit count wraps. */
  method EncodeIOElements(vals: seq<IOElementVal>) returns (data: seq<uint8>)
    ensures data == SerialiseStages(Buckets(vals))
  {
    hide NumberToStream, PutUint16, BucketDone;
    var stageOne, stageTwo, stageThree, stageFour: seq<uint8> := [], [], [], [];
    var stage1: uint16, stage2: uint16, stage3: uint16, stage4: uint16 := 0, 0, 0, 0;
    NoneDone(vals);
    for i := 0 to |vals|
      invariant BucketDone(vals, i, 1, stage1, stageOne)
      invariant BucketDone(vals, i, 2, stage2, stageTwo)
      invariant BucketDone(vals, i, 4, stage3, stageThree)
      invariant BucketDone(vals, i, 8, stage4, stageFour)
    {
      var bytes := NumberToStream(vals[i].value);
      BucketGrows(vals, i, 1, stage1, stageOne);
      BucketGrows(vals, i, 2, stage2, stageTwo);
      BucketGrows(vals, i, 4, stage3, stageThree);
      BucketGrows(vals, i, 8, stage4, stageFour);
      match |bytes| {
        case 1 =>
          stage1 := (stage1 + 1) % 0x1_0000;
          stageOne := stageOne + (PutUint16(vals[i].id) + bytes);
        case 2 =>
          stage2 := (stage2 + 1) % 0x1_0000;
          stageTwo := stageTwo + (PutUint16(vals[i].id) + bytes);
        case 4 =>
          stage3 := (stage3 + 1) % 0x1_0000;
          stageThree := stageThree + (PutUint16(vals[i].id) + bytes);
        case 8 =>
          stage4 := (stage4 + 1) % 0x1_0000;
          stageFour := stageFour + (PutUint16(vals[i].id) + bytes);
        case _ =>
      }
    }
    AllDone(vals, stage1, stageOne, 1);
    AllDone(vals, stage2, stageTwo, 2);
    AllDone(vals, stage3, stageThree, 4);
    AllDone(vals, stage4, stageFour, 8);
    data := PutUint16(stage1) + stageOne;
    data := data + (PutUint16(stage2) + stageTwo);
    data := data + (PutUint16(stage3) + stageThree);
    data := data + (PutUint16(stage4) + stageFour);
    FourBuckets(vals);
  }

  lemma NoneDone(vals: seq<IOElementVal>)
    ensures forall width: nat :: BucketDone(vals, 0, width, 0, [])
  {
    assert vals[..0] == [];
  }

  lemma AllDone(vals: seq<IOElementVal>, count: uint16, stage: seq<uint8>, width: nat)
    requires BucketDone(vals, |vals|, width, count, stage)
    ensures PutUint16(count) + stage == SerialiseStage(Bucket(vals, width))
  {
    assert vals[..|vals|] == vals;
  }

  lemma FourBuckets(vals: seq<IOElementVal>)
    ensures SerialiseStages(Buckets(vals))
         == SerialiseStage(Bucket(vals, 1)) + SerialiseStage(Bucket(vals, 2)) + SerialiseStage(Bucket(vals, 4))
            + SerialiseStage(Bucket(vals, 8))
  {
    hide Bucket, SerialiseStage;
    var b := Buckets(vals);
    assert b[1..] == [b[1], b[2], b[3]] && b[1..][1..] == [b[2], b[3]] && b[2..][1..] == [b[3]] && b[3..][1..] == [];
    assert SerialiseStages([b[3]]) == SerialiseStage(b[3]) by { assert SerialiseStages([]) == []; }
    assert SerialiseStages([b[2], b[3]]) == SerialiseStage(b[2]) + SerialiseStages([b[3]]);
    assert SerialiseStages(b[1..]) == SerialiseStage(b[1]) + SerialiseStages([b[2], b[3]]);
  }

  lemma RecordsAppend(rs: seq<Record>, r: Record)
    ensures SerialiseRecords(rs + [r]) == SerialiseRecords(rs) + SerialiseRecord(r)
  {
    hide SerialiseRecord;
    if rs == [] {
      assert [r][1..] == [];
      assert rs + [r] == [r];
      assert SerialiseRecords([r]) == SerialiseRecord(r) + [];
    } else {
      assert (rs + [r])[1..] == rs[1..] + [r];
      RecordsAppend(rs[1..], r);
    }
  }

  /** The record loop. */
  method EncodeCodec8ExtendedAVLData(points: seq<AvlData>) returns (data: seq<uint8>)
    ensures data == SerialiseRecords(RecordsFor(points))
  {
    hide PutUint16, PutUint32, PutUint64, SerialiseStages, Buckets, CoordinateBits;
    data := [];
    for i := 0 to |points|
      invariant data == SerialiseRecords(RecordsFor(points)[..i])
    {
      var point := points[i];
      var head := EncodeHead(point);
      var stages := EncodeIOElements(point.ioElementsVal);
      var record := head + PutUint16(point.ioElements % 0x1_0000);
      record := record + (stages + [0, 0]);
      RecordsAppend(RecordsFor(points)[..i], RecordFor(point));
      assert RecordsFor(points)[..i + 1] == RecordsFor(points)[..i] + [RecordFor(point)];
      data := data + record;
    }
    assert RecordsFor(points)[..|points|] == RecordsFor(points);
  }

  /** The fixed part of a record, appended field by field. */
  method EncodeHead(point: AvlData) returns (data: seq<uint8>)
    ensures data == SerialiseHead(HeadFor(point))
  {
    hide PutUint16, PutUint32, PutUint64, CoordinateBits;
    data := PutUint64(point.timestamps);
    data := data + [point.priority];
    data := data + PutUint32(CoordinateBits(point.longitude));
    data := data + PutUint32(CoordinateBits(point.latitude));
    data := data + PutUint16(point.altitude % 0x1_0000);
    data := data + PutUint16(point.angle);
    data := data + [point.satellites];
    data := data + PutUint16(point.speed);
    data := data + PutUint16(point.eventId);
  }

  method MakeCodec8Packet(points: seq<AvlData>) returns (data: seq<uint8>)
    ensures data == MakePacket(points)
  {
    hide PutUint32, SerialiseRecords;
    data := [0, 0, 0, 0];
    var avlDataBytes := EncodeCodec8ExtendedAVLData(points);
    data := data + PutUint32((|avlDataBytes| % 0x1_0000_0000 + 1) % 0x1_0000_0000);
    data := data + [0x8e];
    data := data + [|points| % 0x100];
    data := data + avlDataBytes;
    data := data + [|points| % 0x100];
    data := data + PutUint32(0);
  }

  // ---------------------------------------------------------------- stable partition by width

  function Raw(v: IOElementVal): Element {
    Element(v.id, NumberToStream(v.value))
  }

  function RawAll(vals: seq<IOElementVal>): (es: seq<Element>)
    ensures |es| == |vals| && forall i | 0 <= i < |vals| :: es[i] == Raw(vals[i])
  {
    seq(|vals|, i requires 0 <= i < |vals| => Raw(vals[i]))
  }

  /** The buckets in the order they are transmitted. */
  function Partition(vals: seq<IOElementVal>): seq<Element> {
    Bucket(vals, 1) + Bucket(vals, 2) + Bucket(vals, 4) + Bucket(vals, 8)
  }

  /** A bucket is the subsequence of the values of its width: order and repetitions are kept. */
  lemma {:induction false} BucketOfCat(a: seq<IOElementVal>, b: seq<IOElementVal>, width: nat)
    ensures Bucket(a + b, width) == Bucket(a, width) + Bucket(b, width)
  {
    hide NumberToStream;
    if b == [] {
      assert a + b == a;
    } else {
      var n := |b| - 1;
      assert (a + b)[..|a + b| - 1] == a + b[..n];
      BucketOfCat(a, b[..n], width);
    }
  }

  /** No value is lost, duplicated or changed by the bucket loop. */
  lemma {:induction false} PartitionPermutes(vals: seq<IOElementVal>)
    ensures multiset(Partition(vals)) == multiset(RawAll(vals))
  {
    hide NumberToStream;
    if vals == [] {
    } else {
      var n := |vals| - 1;
      PartitionPermutes(vals[..n]);
      assert RawAll(vals) == RawAll(vals[..n]) + [Raw(vals[n])];
      OneBucketGrows(vals);
    }
  }

  lemma OneBucketGrows(vals: seq<IOElementVal>)
    requires vals != []
    ensures multiset(Partition(vals)) == multiset(Partition(vals[..|vals| - 1])) + multiset{Raw(vals[|vals| - 1])}
  {
    hide NumberToStream;
  }

  /** What the receiver reads back from the printed stages, at the level of ids and bytes. */
  lemma StablePartition(vals: seq<IOElementVal>, rest: seq<uint8>)
    requires |vals| < 0x1_0000
    ensures ReadStages(SerialiseStages(Buckets(vals)) + rest, 0) == Got(Buckets(vals), rest)
    ensures |Partition(vals)| == |vals| && multiset(Partition(vals)) == multiset(RawAll(vals))
  {
    hide SerialiseStages, ReadStages, Bucket;
    BucketsFit(vals);
    StagesComplete(Buckets(vals), 0, rest);
    PartitionPermutes(vals);
    assert |multiset(Partition(vals))| == |multiset(RawAll(vals))|;
  }

  lemma BucketsFit(vals: seq<IOElementVal>)
    requires |vals| < 0x1_0000
    ensures FitsStages(Buckets(vals), 0)
  {
    hide Bucket, OfWidth;
    var b := Buckets(vals);
    forall i | 0 <= i < |b| ensures FitsStage(b[i], Width(0 + i)) {
    }
  }

  /** The element type of the encoder only holds 32-bit values. */
  predicate All32(vals: seq<IOElementVal>) {
    forall v <- vals :: v.value.N32?
  }

  lemma {:induction false} OnlyFourByteStage(vals: seq<IOElementVal>)
    requires All32(vals)
    ensures Bucket(vals, 1) == Bucket(vals, 2) == Bucket(vals, 8) == [] && Bucket(vals, 4) == RawAll(vals)
  {
    hide NumberToStream;
    if vals == [] {
    } else {
      OnlyFourByteStage(vals[..|vals| - 1]);
      WidthOf(vals[|vals| - 1].value);
      assert RawAll(vals) == RawAll(vals[..|vals| - 1]) + [Raw(vals[|vals| - 1])];
    }
  }

  // ---------------------------------------------------------------- round trip

  /** The elements a receiver makes of the values of one point. */
  function ReceivedElements(vals: seq<IOElementVal>): seq<IoElement> {
    DecodeElements(0, Bucket(vals, 1)) + DecodeElements(1, Bucket(vals, 2))
    + DecodeElements(2, Bucket(vals, 4)) + DecodeElements(3, Bucket(vals, 8))
  }

  /** The point a receiver should see for `p`: exact but for coordinates, and altitudes as unsigned numbers. */
  function Received(p: AvlData, imei: seq<uint8>): Point {
    Point(imei, p.timestamps, p.priority, p.eventId,
          Gps(Coordinate(CoordinateBits(p.longitude)), Coordinate(CoordinateBits(p.latitude)),
              if p.altitude < 0 then p.altitude + 0x1_0000 else p.altitude, p.angle, p.satellites, p.speed),
          ReceivedElements(p.ioElementsVal))
  }

  function ReceivedAll(points: seq<AvlData>, imei: seq<uint8>): (ps: seq<Point>)
    ensures |ps| == |points| && forall i | 0 <= i < |points| :: ps[i] == Received(points[i], imei)
  {
    seq(|points|, i requires 0 <= i < |points| => Received(points[i], imei))
  }

  /** Every point has few enough values for the 16-bit counts. */
  predicate CountsFit(points: seq<AvlData>) {
    forall p <- points :: |p.ioElementsVal| < 0x1_0000
  }

  lemma RecordReceived(p: AvlData, imei: seq<uint8>)
    requires |p.ioElementsVal| < 0x1_0000
    ensures FitsRecord(RecordFor(p)) && DecodeRecord(RecordFor(p), imei) == Received(p, imei)
  {
    hide Bucket, Coordinate, CoordinateBits, DecodeElements, FitsStages, FitsFirst, DecodeStages;
    BucketsFit(p.ioElementsVal);
    AllStagesFit(Buckets(p.ioElementsVal));
    DecodeFour(Buckets(p.ioElementsVal));
  }

  lemma FrameReceived(points: seq<AvlData>, imei: seq<uint8>)
    requires |points| < 0x100 && CountsFit(points)
    ensures Fits(FrameFor(points)) && DecodeRecords(FrameFor(points).records, imei) == ReceivedAll(points, imei)
  {
    hide FitsStages, RecordFor, DecodeRecord, Received, SerialiseRecords;
    forall i | 0 <= i < |points|
      ensures FitsRecord(RecordFor(points[i]))
              && DecodeRecord(RecordFor(points[i]), imei) == Received(points[i], imei)
    {
      RecordReceived(points[i], imei);
    }
  }

  /**
   Parsing a printed packet, whatever follows it, gives the points that were sent, in order: exactly when
   the points fit the one-byte record count.
   */
  lemma RoundTrip(points: seq<AvlData>, rest: seq<uint8>, imei: seq<uint8>)
    requires CountsFit(points)
    ensures Parse(MakePacket(points) + rest, imei) == Ok(ReceivedAll(points, imei)) <==> |points| < 0x100
  {
    hide Serialise, ReadFrame, FrameFor, DecodeRecords, Received, FitsStages;
    if |points| < 0x100 {
      FrameReceived(points, imei);
      ParseOfFrame(FrameFor(points), rest, imei);
    }
    var data := MakePacket(points) + rest;
    if Parse(data, imei).Ok? {
      FrameSound(data);
    }
  }

  /** With the 32-bit values the encoder is given, every (id, value) pair arrives, in order. */
  lemma {:induction false} ValuesReceived(vals: seq<IOElementVal>)
    requires All32(vals)
    ensures |ReceivedElements(vals)| == |vals|
    ensures forall i | 0 <= i < |vals| ::
              ReceivedElements(vals)[i] == IoElement(Itoa(vals[i].id), vals[i].value.n32 as real, 0.0)
  {
    hide ReceivedElements, NumberToStream, Itoa, DecodeElements, RawAll, OfWidth, Width;
    Only32Received(vals);
    FourByteElements(vals);
  }

  lemma Only32Received(vals: seq<IOElementVal>)
    requires All32(vals)
    ensures OfWidth(RawAll(vals), 4) && ReceivedElements(vals) == DecodeElements(2, RawAll(vals))
  {
    hide Bucket, NumberToStream, RawAll, DecodeElements, OfWidth;
    OnlyFourByteStage(vals);
    NothingDecoded();
  }

  lemma NothingDecoded()
    ensures DecodeElements(0, []) == DecodeElements(1, []) == DecodeElements(3, []) == []
  {
  }

  lemma {:induction false} FourByteElements(vals: seq<IOElementVal>)
    requires All32(vals)
    ensures OfWidth(RawAll(vals), 4) && |DecodeElements(2, RawAll(vals))| == |vals|
    ensures forall i | 0 <= i < |vals| ::
              DecodeElements(2, RawAll(vals))[i] == IoElement(Itoa(vals[i].id), vals[i].value.n32 as real, 0.0)
    decreases |vals|
  {
    hide Itoa, Round, PutUint32, Uint32;
    if vals == [] {
    } else {
      FourByteElements(vals[1..]);
      assert RawAll(vals)[1..] == RawAll(vals[1..]);
      RoundWhole(vals[0].value.n32);
      assert DecodeElement(2, Raw(vals[0])) == [IoElement(Itoa(vals[0].id), vals[0].value.n32 as real, 0.0)];
    }
  }

  // ---------------------------------------------------------------- values of all widths

  function NumberOf(n: Number): nat {
    match n
    case N8(b) => b
    case N16(w) => w
    case N32(w) => w
    case N64(w) => w
  }

  /** A number is printed most significant byte first, in as many bytes as its type has. */
  lemma StreamIs(n: Number)
    ensures BigEndian(NumberToStream(n)) == NumberOf(n)
    ensures |NumberToStream(n)| == match n case N8(_) => 1 case N16(_) => 2 case N32(_) => 4 case N64(_) => 8
  {
    match n
    case N8(b) => assert [b][..0] == [];
    case N16(w) => Uint16Is(PutUint16(w));
    case N32(w) => Uint32Is(PutUint32(w));
    case N64(w) => Uint64Is(PutUint64(w));
  }

  /** The values printed in `width` bytes, in their order. */
  function OfBytes(vals: seq<IOElementVal>, width: nat): (some: seq<IOElementVal>)
    ensures forall v <- some :: |NumberToStream(v.value)| == width
  {
    if vals == [] then []
    else
      var last := vals[|vals| - 1];
      OfBytes(vals[..|vals| - 1], width) + if |NumberToStream(last.value)| == width then [last] else []
  }

  lemma {:induction false} BucketIs(vals: seq<IOElementVal>, width: nat)
    ensures Bucket(vals, width) == RawAll(OfBytes(vals, width))
  {
    hide NumberToStream;
    if vals == [] {
    } else {
      BucketIs(vals[..|vals| - 1], width);
    }
  }

  /** What a receiver should see of numbers of stage `k`. */
  function NumbersOf(k: nat, vals: seq<IOElementVal>): (es: seq<IoElement>)
    ensures |es| == |vals|
    ensures forall i | 0 <= i < |vals| ::
              es[i] == IoElement(NumberName(k, vals[i].id), NumberOf(vals[i].value) as real, 0.0)
  {
    seq(|vals|, i requires 0 <= i < |vals| =>
      IoElement(NumberName(k, vals[i].id), NumberOf(vals[i].value) as real, 0.0))
  }

  lemma {:induction false} NumbersRead(k: nat, vals: seq<IOElementVal>)
    requires k < 3 && forall v <- vals :: |NumberToStream(v.value)| == Width(k)
    ensures OfWidth(RawAll(vals), Width(k)) && DecodeElements(k, RawAll(vals)) == NumbersOf(k, vals)
    decreases |vals|
  {
    hide NumberToStream, NumberOf, NumberName, DecodeElement, Width, BigEndian;
    if vals == [] {
    } else {
      NumbersRead(k, vals[1..]);
      assert RawAll(vals)[1..] == RawAll(vals[1..]);
      NumberRead(k, Raw(vals[0]));
      StreamIs(vals[0].value);
      assert NumbersOf(k, vals) == [NumbersOf(k, vals)[0]] + NumbersOf(k, vals[1..]);
    }
  }

  /** What a receiver should see of an 8-byte value. */
  function SignalsOf(v: IOElementVal): seq<IoElement> {
    if 145 <= v.id <= 154 then Readings(Layout(v.id), NumberOf(v.value)) else [IoElement(Itoa(v.id), 999.0, 1000.0)]
  }

  function AllSignals(vals: seq<IOElementVal>): seq<IoElement> {
    if vals == [] then [] else SignalsOf(vals[0]) + AllSignals(vals[1..])
  }

  lemma {:induction false} SignalsReceived(vals: seq<IOElementVal>)
    requires forall v <- vals :: |NumberToStream(v.value)| == 8
    ensures OfWidth(RawAll(vals), 8) && DecodeElements(3, RawAll(vals)) == AllSignals(vals)
    decreases |vals|
  {
    hide NumberToStream, NumberOf, DecodeElement, SignalsOf, BigEndian;
    if vals == [] {
    } else {
      SignalsReceived(vals[1..]);
      assert RawAll(vals)[1..] == RawAll(vals[1..]);
      OneReceived(vals[0]);
    }
  }

  lemma OneReceived(v: IOElementVal)
    requires |NumberToStream(v.value)| == 8
    ensures DecodeElement(3, Raw(v)) == SignalsOf(v)
  {
    hide NumberToStream, NumberOf, DecodeElement, BigEndian, Uint64, Readings, Layout, Itoa;
    StreamIs(v.value);
    Uint64Is(NumberToStream(v.value));
    SignalsRead(v.id, NumberToStream(v.value));
  }

  /** For values of any widths, every element that arrives: its name, and its number or its signals. */
  lemma AllReceived(vals: seq<IOElementVal>)
    ensures ReceivedElements(vals)
         == NumbersOf(0, OfBytes(vals, 1)) + NumbersOf(1, OfBytes(vals, 2)) + NumbersOf(2, OfBytes(vals, 4))
            + AllSignals(OfBytes(vals, 8))
  {
    hide Bucket, OfBytes, RawAll, NumbersOf, AllSignals, NumberToStream, DecodeElements;
    BucketIs(vals, 1);
    BucketIs(vals, 2);
    BucketIs(vals, 4);
    BucketIs(vals, 8);
    NumbersRead(0, OfBytes(vals, 1));
    NumbersRead(1, OfBytes(vals, 2));
    NumbersRead(2, OfBytes(vals, 4));
    SignalsReceived(OfBytes(vals, 8));
  }

  // ---------------------------------------------------------------- counts that overflow

  predicate DecimalNames(es: seq<IoElement>) {
    forall e <- es :: e.name != [] && '0' <= e.name[0] <= '9'
  }

  lemma {:induction false} DecimalMeansSingle(es: seq<Element>)
    requires OfWidth(es, Width(3)) && DecimalNames(DecodeElements(3, es))
    ensures |DecodeElements(3, es)| == |es|
  {
    hide EightByteNames, EightByteValues, Itoa;
    if es == [] {
    } else {
      var first := DecodeElement(3, es[0]);
      NamesExpand(es[0].id);
      assert first[0] in first + DecodeElements(3, es[1..]);
      if Expand(es[0].id) != 1 {
        SignalNames(es[0].id);
        assert false;
      }
      assert forall e <- DecodeElements(3, es[1..]) :: e in DecodeElements(3, es);
      DecimalMeansSingle(es[1..]);
    }
  }

  lemma {:induction false} ReceivedDecimal(vals: seq<IOElementVal>)
    requires All32(vals)
    ensures DecimalNames(ReceivedElements(vals))
  {
    hide Itoa, ReceivedElements;
    ValuesReceived(vals);
    forall e <- ReceivedElements(vals) ensures e.name != [] && '0' <= e.name[0] <= '9' {
      var i :| 0 <= i < |vals| && ReceivedElements(vals)[i] == e;
      ItoaStartsWithDigit(vals[i].id);
    }
  }

  lemma EmptyStage(width: nat, rest: seq<uint8>)
    ensures SerialiseStage([]) == PutUint16(0) && ReadStage(PutUint16(0) + rest, width) == Got([], rest)
  {
    assert (PutUint16(0) + rest)[..2] == PutUint16(0);
  }

  lemma CountRead(es: seq<Element>, width: nat, rest: seq<uint8>)
    requires ReadStage(SerialiseStage(es) + rest, width).Got?
    ensures |ReadStage(SerialiseStage(es) + rest, width).value| == |es| % 0x1_0000
  {
    hide SerialiseElements, PutUint16, Uint16;
    var s := SerialiseStage(es) + rest;
    assert s[..2] == PutUint16(|es| % 0x1_0000);
    ElementsSound(s[2..], width, Uint16(s[..2]));
  }

  /** What the receiver reads of a record with 32-bit values only: two empty stages and the count modulo 65536. */
  lemma StageCounts(vals: seq<IOElementVal>, rest: seq<uint8>)
    requires All32(vals) && ReadStages(SerialiseStages(Buckets(vals)) + rest, 0).Got?
    ensures var stages := ReadStages(SerialiseStages(Buckets(vals)) + rest, 0).value;
            |stages| == 4 && stages[0] == [] && stages[1] == [] && |stages[2]| == |vals| % 0x1_0000
  {
    hide Bucket, SerialiseElements, ReadStage, PutUint16, SerialiseStage;
    OnlyFourByteStage(vals);
    FourBuckets(vals);
    var long := SerialiseStage(RawAll(vals)) + (SerialiseStage([]) + rest);
    assert SerialiseStages(Buckets(vals)) + rest == SerialiseStage([]) + (SerialiseStage([]) + long);
    EmptyStage(1, SerialiseStage([]) + long);
    EmptyStage(2, long);
    assert ReadStages(long, 2).Got?;
    CountRead(RawAll(vals), 4, SerialiseStage([]) + rest);
  }

  lemma OverflowLost(p: AvlData, tail: seq<uint8>, imei: seq<uint8>)
    requires All32(p.ioElementsVal) && |p.ioElementsVal| >= 0x1_0000
    requires ReadRecord(SerialiseRecord(RecordFor(p)) + tail).Got?
    ensures var r := ReadRecord(SerialiseRecord(RecordFor(p)) + tail).value;
            FitsStages(r.stages, 0) && DecodeRecord(r, imei) != Received(p, imei)
  {
    hide SerialiseHead, SerialiseStages, ReadStages, HeadOf, Buckets, ReceivedElements, DecodeElements, Uint16,
         PutUint16, CoordinateBits, Coordinate, OfWidth;
    var s := SerialiseRecord(RecordFor(p)) + tail;
    var rest := [0, 0] + tail;
    RecordSound(s);
    var r := ReadRecord(s).value;
    assert s[28..] == SerialiseStages(Buckets(p.ioElementsVal)) + rest;
    StageCounts(p.ioElementsVal, rest);
    AllStagesFit(r.stages);
    DecodeFour(r.stages);
    assert FitsStage(r.stages[3], Width(3));
    if DecodeStages(r.stages, 4) == ReceivedElements(p.ioElementsVal) {
      OverflowCount(r.stages, p.ioElementsVal);
    }
  }

  /** Were the two lists equal, 65536 or more of the elements would come from fewer 8-byte elements, each one. */
  lemma OverflowCount(stages: seq<seq<Element>>, vals: seq<IOElementVal>)
    requires FitsFirst(stages, 4) && All32(vals) && |vals| >= 0x1_0000
    requires stages[0] == [] && stages[1] == [] && |stages[2]| == |vals| % 0x1_0000
    ensures DecodeStages(stages, 4) != ReceivedElements(vals)
  {
    hide DecodeStages, ReceivedElements, DecodeElements, OfWidth, FitsStage, DecimalNames;
    DecodeTwo(stages);
    ValuesReceived(vals);
    ReceivedDecimal(vals);
    if DecodeStages(stages, 4) == ReceivedElements(vals) {
      TailDecimal(DecodeElements(2, stages[2]), DecodeElements(3, stages[3]));
      DecimalMeansSingle(stages[3]);
      assert false;
    }
  }

  lemma DecodeTwo(stages: seq<seq<Element>>)
    requires FitsFirst(stages, 4) && stages[0] == [] && stages[1] == []
    ensures OfWidth(stages[2], Width(2)) && OfWidth(stages[3], Width(3)) && |stages[3]| < 0x1_0000
    ensures DecodeStages(stages, 4) == DecodeElements(2, stages[2]) + DecodeElements(3, stages[3])
    ensures |DecodeElements(2, stages[2])| == |stages[2]|
  {
    hide DecodeElement, OfWidth, Width, DecodeStages, ExpandAll;
    assert FitsStage(stages[2], Width(2)) && FitsStage(stages[3], Width(3));
    DecodeFour(stages);
    ElementsConserved(2, stages[2]);
  }

  lemma TailDecimal(xs: seq<IoElement>, ys: seq<IoElement>)
    requires DecimalNames(xs + ys)
    ensures DecimalNames(ys)
  {
    forall e <- ys ensures e.name != [] && '0' <= e.name[0] <= '9' {
      assert e in xs + ys;
    }
  }

  lemma {:induction false} OverflowFound(points: seq<AvlData>, tail: seq<uint8>, imei: seq<uint8>)
    requires forall p <- points :: All32(p.ioElementsVal)
    requires ReadRecords(SerialiseRecords(RecordsFor(points)) + tail, |points|).Got?
    requires var rs := ReadRecords(SerialiseRecords(RecordsFor(points)) + tail, |points|).value;
             |rs| == |points|
             && forall i | 0 <= i < |rs| ::
                  FitsStages(rs[i].stages, 0) && DecodeRecord(rs[i], imei) == Received(points[i], imei)
    ensures CountsFit(points)
    decreases |points|
  {
    hide SerialiseRecord, ReadRecord, RecordFor, DecodeRecord, Received, FitsStages;
    if points == [] {
    } else {
      var later := RecordsFor(points)[1..];
      assert later == RecordsFor(points[1..]);
      var front, back := SerialiseRecord(RecordFor(points[0])), SerialiseRecords(later) + tail;
      var rs := ReadRecords(SerialiseRecords(RecordsFor(points)) + tail, |points|).value;
      Unsplice(front, SerialiseRecords(later), tail);
      var r := ReadRecord(front + back).value;
      assert rs[0] == r;
      if |points[0].ioElementsVal| >= 0x1_0000 {
        OverflowLost(points[0], back, imei);
      } else {
        RecordReceived(points[0], imei);
        RecordComplete(RecordFor(points[0]), back);
        var rs' := ReadRecords(back, |points| - 1).value;
        assert rs == [r] + rs';
        forall i | 0 <= i < |rs'|
          ensures FitsStages(rs'[i].stages, 0) && DecodeRecord(rs'[i], imei) == Received(points[1..][i], imei)
        {
          assert rs[i + 1] == rs'[i];
        }
        OverflowFound(points[1..], tail, imei);
      }
    }
  }

  /**
   With the 32-bit values the encoder's element type holds, the round trip works exactly when the number of
   points fits its byte and every number of values fits its 16 bits.
   */
  lemma RoundTripExact(points: seq<AvlData>, rest: seq<uint8>, imei: seq<uint8>)
    requires forall p <- points :: All32(p.ioElementsVal)
    ensures Parse(MakePacket(points) + rest, imei) == Ok(ReceivedAll(points, imei))
       <==> |points| < 0x100 && CountsFit(points)
  {
    hide Serialise, ReadFrame, FrameFor, DecodeRecords, Received, FitsStages;
    if CountsFit(points) {
      RoundTrip(points, rest, imei);
    }
    if Parse(MakePacket(points) + rest, imei) == Ok(ReceivedAll(points, imei)) {
      ReceivedFits(points, rest, imei);
    }
  }

  lemma ReceivedFits(points: seq<AvlData>, rest: seq<uint8>, imei: seq<uint8>)
    requires forall p <- points :: All32(p.ioElementsVal)
    requires Parse(MakePacket(points) + rest, imei) == Ok(ReceivedAll(points, imei))
    ensures |points| < 0x100 && CountsFit(points)
  {
    hide SerialiseHeader, SerialiseRecords, ReadRecords, RecordFor, DecodeRecord, Received, FitsStages, Uint32,
         PutUint32;
    var data := MakePacket(points) + rest;
    var f := FrameFor(points);
    var n: uint8 := |points| % 0x100;
    var end := [n] + PutUint32(f.crc);
    FrameSound(data);
    var rs := ReadFrame(data).value.frame.records;
    var header := SerialiseHeader(f.dataLength, CODEC_8_EXTENDED, n);
    Unsplice(header, SerialiseRecords(f.records) + end, rest);
    Unsplice(SerialiseRecords(f.records), end, rest);
    HeaderFields(f.dataLength, CODEC_8_EXTENDED, n, SerialiseRecords(f.records) + (end + rest));
    assert |rs| == |points|;
    forall i | 0 <= i < |rs|
      ensures FitsStages(rs[i].stages, 0) && DecodeRecord(rs[i], imei) == Received(points[i], imei)
    {
      assert FitsRecord(rs[i]);
      assert DecodeRecords(rs, imei)[i] == ReceivedAll(points, imei)[i];
    }
    OverflowFound(points, end + rest, imei);
  }

  // ---------------------------------------------------------------- coordinates

  /** `y` is `x` cut to seven decimals: within 10^-7, no farther from zero, and not across it. */
  predicate CutToSevenDecimals(y: real, x: real) {
    if x >= 0.0 then 0.0 <= y <= x < y + 0.0000001 else y - 0.0000001 < x <= y <= 0.0
  }

  /** Coordinates survive the int32 on the wire exactly when they fit it, in units of 10^-7 degrees. */
  lemma CoordinateFidelity(x: real)
    ensures CutToSevenDecimals(Coordinate(CoordinateBits(x)), x) <==> -2147483649.0 < x * 10000000.0 < 2147483648.0
  {
    var n := Trunc(x * 10000000.0);
    WrapTwice(n);
    assert Coordinate(CoordinateBits(x)) == ToInt32(n) as real / 10000000.0;
    if !(-0x8000_0000 <= n < 0x8000_0000) {
      assert ToInt32(n) - n >= 0x1_0000_0000 || n - ToInt32(n) >= 0x1_0000_0000;
    }
  }

  lemma WrapTwice(n: int)
    ensures ToInt32(n % 0x1_0000_0000) == ToInt32(n)
    ensures -0x8000_0000 <= n < 0x8000_0000 <==> ToInt32(n) == n
    ensures ToInt32(n) == n || ToInt32(n) - n >= 0x1_0000_0000 || n - ToInt32(n) >= 0x1_0000_0000
  {
  }

  // ---------------------------------------------------------------- sizes

  function ValuesSize(vals: seq<IOElementVal>): nat {
    if vals == [] then 0 else ValuesSize(vals[..|vals| - 1]) + 2 + |NumberToStream(vals[|vals| - 1].value)|
  }

  function PointsSize(points: seq<AvlData>): nat {
    if points == [] then 0 else 38 + ValuesSize(points[0].ioElementsVal) + PointsSize(points[1..])
  }

  lemma {:induction false} ElementsSize(es: seq<Element>, width: nat)
    requires OfWidth(es, width)
    ensures |SerialiseElements(es)| == (2 + width) * |es|
  {
    hide PutUint16;
    if es == [] {
    } else {
      ElementsSize(es[1..], width);
      assert (2 + width) * |es| == (2 + width) * |es[1..]| + (2 + width);
    }
  }

  lemma {:induction false} ValuesCount(vals: seq<IOElementVal>)
    ensures ValuesSize(vals)
         == 3 * |Bucket(vals, 1)| + 4 * |Bucket(vals, 2)| + 6 * |Bucket(vals, 4)| + 10 * |Bucket(vals, 8)|
    ensures All32(vals) ==> ValuesSize(vals) == 6 * |vals|
    ensures ValuesSize(vals) >= 3 * |vals|
  {
    hide NumberToStream;
    if vals == [] {
    } else {
      ValuesCount(vals[..|vals| - 1]);
      WidthOf(vals[|vals| - 1].value);
    }
  }

  lemma WidthOf(n: Number)
    ensures n.N32? ==> |NumberToStream(n)| == 4
  {
  }

  lemma RecordSize(p: AvlData)
    ensures |SerialiseRecord(RecordFor(p))| == 38 + ValuesSize(p.ioElementsVal)
  {
    hide Bucket, SerialiseHead, SerialiseElements;
    var vals := p.ioElementsVal;
    FourBuckets(vals);
    ElementsSize(Bucket(vals, 1), 1);
    ElementsSize(Bucket(vals, 2), 2);
    ElementsSize(Bucket(vals, 4), 4);
    ElementsSize(Bucket(vals, 8), 8);
    ValuesCount(vals);
  }

  lemma {:induction false} RecordsSize(points: seq<AvlData>)
    ensures |SerialiseRecords(RecordsFor(points))| == PointsSize(points)
  {
    hide SerialiseRecord, RecordFor;
    if points == [] {
    } else {
      assert RecordsFor(points)[1..] == RecordsFor(points[1..]);
      RecordSize(points[0]);
      RecordsSize(points[1..]);
    }
  }

  /** Every packet is 15 bytes and its points. The length field is 14 less unless it overflows 32 bits. */
  lemma PacketSize(points: seq<AvlData>)
    ensures |MakePacket(points)| == 15 + PointsSize(points)
    ensures |MakePacket(points)| == FrameFor(points).dataLength + 14 <==> PointsSize(points) + 1 < 0x1_0000_0000
  {
    hide SerialiseRecords, SerialiseHeader, PointsSize, PutUint32;
    RecordsSize(points);
    LengthField(PointsSize(points));
  }

  lemma LengthField(n: nat)
    ensures (n % 0x1_0000_0000 + 1) % 0x1_0000_0000 == n + 1 <==> n + 1 < 0x1_0000_0000
  {
  }

  /** With 32-bit values only, a point costs 38 bytes and 6 for each value. */
  lemma {:induction false} PointsSize32(points: seq<AvlData>)
    requires forall p <- points :: All32(p.ioElementsVal)
    ensures PointsSize(points) == 38 * |points| + 6 * CountValues(points)
  {
    if points == [] {
    } else {
      ValuesCount(points[0].ioElementsVal);
      PointsSize32(points[1..]);
    }
  }

  function CountValues(points: seq<AvlData>): nat {
    if points == [] then 0 else |points[0].ioElementsVal| + CountValues(points[1..])
  }

  /** A packet that fits the handler's read buffer has counts that fit their fields. */
  lemma {:induction false} SmallPacketFits(points: seq<AvlData>)
    requires PointsSize(points) <= 2033
    ensures |points| <= 53 && CountsFit(points)
  {
    PointsCost(points);
  }

  lemma {:induction false} PointsCost(points: seq<AvlData>)
    ensures PointsSize(points) >= 38 * |points|
    ensures forall p <- points :: PointsSize(points) >= 3 * |p.ioElementsVal|
  {
    hide ValuesSize;
    if points == [] {
    } else {
      PointsCost(points[1..]);
      ValuesCount(points[0].ioElementsVal);
    }
  }

  // ---------------------------------------------------------------- the bytes that no receiver looks at

  /** A printed packet, byte by byte but for its records: preamble, length, codec, count, count again, no checksum. */
  lemma PacketBytes(points: seq<AvlData>)
    ensures var n, size := |points| % 0x100, PointsSize(points);
            var p := MakePacket(points);
            |p| == 15 + size && p[..4] == [0, 0, 0, 0]
            && BigEndian(p[4..8]) == (size % 0x1_0000_0000 + 1) % 0x1_0000_0000
            && p[8] == 0x8e && p[9] == n && p[10 + size] == n && p[11 + size..] == [0, 0, 0, 0]
  {
    hide PutUint32, BigEndian, SerialiseRecords, RecordsFor, PointsSize;
    RecordsSize(points);
    var f := FrameFor(points);
    var n: uint8 := |points| % 0x100;
    var body := SerialiseRecords(f.records);
    HeaderFields(f.dataLength, CODEC_8_EXTENDED, n, body + ([n] + PutUint32(0)));
    var p := MakePacket(points);
    assert p[..4] == [0, 0, 0, 0];
    Uint32Is(p[4..8]);
    assert p[10..] == body + ([n] + PutUint32(0));
    assert p[10 + |body|] == p[10..][|body|] == n;
    assert p[11 + |body|..] == p[10..][|body| + 1..] == PutUint32(0);
    NoChecksum();
  }

  lemma NoChecksum()
    ensures PutUint32(0) == [0, 0, 0, 0]
  {
  }

  /** A printed record: every field of the point at its place, the number of IO elements, two zero bytes at the end. */
  lemma RecordBytes(p: AvlData)
    ensures var s := SerialiseRecord(RecordFor(p));
            |s| >= 38
            && BigEndian(s[..8]) == p.timestamps && s[8] == p.priority
            && BigEndian(s[9..13]) == CoordinateBits(p.longitude)
            && BigEndian(s[13..17]) == CoordinateBits(p.latitude)
            && BigEndian(s[17..19]) == p.altitude % 0x1_0000 && BigEndian(s[19..21]) == p.angle
            && s[21] == p.satellites && BigEndian(s[22..24]) == p.speed && BigEndian(s[24..26]) == p.eventId
            && BigEndian(s[26..28]) == p.ioElements % 0x1_0000 && s[|s| - 2..] == [0, 0]
  {
    hide SerialiseHead, SerialiseStages, PutUint16, BigEndian, Buckets, ValuesSize, HeadOf, CoordinateBits;
    var r := RecordFor(p);
    var s := SerialiseRecord(r);
    var rest := PutUint16(r.total) + (SerialiseStages(r.stages) + [0, 0]);
    RecordSize(p);
    assert s == SerialiseHead(r.head) + rest;
    assert s[26..28] == PutUint16(r.total);
    Uint16Is(s[26..28]);
    HeadComplete(r.head, rest);
    HeadFields(s);
  }
}
