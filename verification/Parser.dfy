/**
 The packet parser: a cursor over the received bytes, read in the order of the protocol. Each method is
 proved against the scan of `Wire`; what that scan accepts is what the serialiser produces.

 Running out of bytes is a panic in Go. Here it is the failure `Panic`.
 */
module Parser {
  import opened Bytes
  import opened Wire
  import opened Elements

  datatype Gps = Gps(longitude: real, latitude: real, altitude: int, angle: int, satellites: int, speed: int)

  /** A decoded record. The time stamp stays the transmitted number. */
  datatype Point = Point(
    imei: seq<uint8>, timestamp: uint64, priority: uint8, eventId: uint16, gps: Gps, elements: seq<IoElement>)

  // ---------------------------------------------------------------- what a raw frame means

  /** `n >> 31` on an int32: an arithmetic shift, so -1 for negative numbers. */
  function SignShift(n: int32): int {
    if n < 0 then -1 else 0
  }

  function Coordinate(raw: uint32): real {
    var n: int := ToInt32(raw);
    var m := if SignShift(n) == 1 then ToInt32(-n) else n;
    m as real / 10000000.0
  }

  function DecodeElements(k: nat, es: seq<Element>): seq<IoElement>
    requires k < STAGES && OfWidth(es, Width(k))
  {
    if es == [] then [] else DecodeElement(k, es[0]) + DecodeElements(k, es[1..])
  }

  predicate FitsFirst(stages: seq<seq<Element>>, n: nat) {
    n <= STAGES && n <= |stages| && forall i: nat | i < n :: FitsStage(stages[i], Width(i))
  }

  /** The elements of the first `n` stages, in the order they were transmitted. */
  function DecodeStages(stages: seq<seq<Element>>, n: nat): seq<IoElement>
    requires FitsFirst(stages, n)
  {
    if n == 0 then [] else DecodeStages(stages, n - 1) + DecodeElements(n - 1, stages[n - 1])
  }

  lemma AllStagesFit(stages: seq<seq<Element>>)
    requires FitsStages(stages, 0)
    ensures FitsFirst(stages, STAGES)
  {
    hide FitsStage, Width;
    forall i: nat | i < STAGES ensures FitsStage(stages[i], Width(i)) {
      assert FitsStage(stages[i], Width(0 + i));
    }
  }

  function DecodePoint(h: Head, elements: seq<IoElement>, imei: seq<uint8>): Point {
    Point(imei, h.timestamp, h.priority, h.eventId,
          Gps(Coordinate(h.longitude), Coordinate(h.latitude), h.altitude, h.angle, h.satellites, h.speed),
          elements)
  }

  function DecodeRecord(r: Record, imei: seq<uint8>): Point
    requires FitsStages(r.stages, 0)
  {
    AllStagesFit(r.stages);
    DecodePoint(r.head, DecodeStages(r.stages, STAGES), imei)
  }

  function DecodeRecords(rs: seq<Record>, imei: seq<uint8>): (ps: seq<Point>)
    requires forall r <- rs :: FitsStages(r.stages, 0)
    ensures |ps| == |rs| && forall i | 0 <= i < |rs| :: ps[i] == DecodeRecord(rs[i], imei)
  {
    seq(|rs|, i requires 0 <= i < |rs| => DecodeRecord(rs[i], imei))
  }

  /** The outcome of parsing a buffer for the device `imei`. */
  function Parse(data: seq<uint8>, imei: seq<uint8>): Result<seq<Point>> {
    match ReadFrame(data)
    case Err(e) => Err(e)
    case Ok(Scan(f, _)) =>
      FrameSound(data);
      Ok(DecodeRecords(f.records, imei))
  }

  // ---------------------------------------------------------------- the cursor

  /** Go's `bytes.Buffer`, by the bytes not yet read. */
  class Buffer {
    var unread: seq<uint8>

    constructor (data: seq<uint8>)
      ensures unread == data
    {
      unread := data;
    }

    /** The next `n` bytes, or as many as there are. */
    method Next(n: nat) returns (b: seq<uint8>)
      modifies this
      ensures var m := if n < |old(unread)| then n else |old(unread)|;
              b == old(unread)[..m] && unread == old(unread)[m..]
    {
      var m := if n < |unread| then n else |unread|;
      b := unread[..m];
      unread := unread[m..];
    }

    /** `Next(n)` followed by an access to all `n` bytes. */
    method Take(n: nat) returns (r: Result<seq<uint8>>)
      modifies this
      ensures if n <= |old(unread)| then r == Ok(old(unread)[..n]) && unread == old(unread)[n..] else r == Err(Panic)
    {
      var b := Next(n);
      r := if |b| < n then Err(Panic) else Ok(b);
    }

    /** `Take(n)` when the bytes before offset `at` of `all` have been read. */
    method Field(n: nat, ghost all: seq<uint8>, ghost at: nat) returns (r: Result<seq<uint8>>)
      requires at <= |all| && unread == all[at..]
      modifies this
      ensures if at + n <= |all| then r == Ok(all[at..at + n]) && unread == all[at + n..] else r == Err(Panic)
    {
      r := Take(n);
      if at + n <= |all| {
        assert all[at..][..n] == all[at..at + n] && all[at..][n..] == all[at + n..];
      }
    }
  }

  // ---------------------------------------------------------------- the parser

  /** One element of stage `stage`, counted from 1: the id, then the value by the stage's own decoder. */
  method ParseElement(reader: Buffer, stage: nat) returns (r: Result<seq<IoElement>>)
    requires 1 <= stage <= STAGES
    modifies reader
    ensures var s, w := old(reader.unread), Width(stage - 1);
            if |s| < 2 + w then r == Err(Panic)
            else r == Ok(DecodeElement(stage - 1, Element(Uint16(s[..2]), s[2..2 + w])))
                 && reader.unread == s[2 + w..]
  {
    hide Uint16, Uint32, DecodeEight;
    var idBytes :- reader.Take(2);
    var id := Uint16(idBytes);
    match stage {
      case 1 =>
        var v :- reader.Take(1);
        assert v == old(reader.unread)[2..3];
        r := Ok([IoElement(OneByteName(id), Round(v[0] as real), 0.0)]);
      case 2 =>
        var v :- reader.Take(2);
        assert v == old(reader.unread)[2..4];
        r := Ok([IoElement(TwoByteName(id), Round(Uint16(v) as real), 0.0)]);
      case 3 =>
        var v :- reader.Take(4);
        assert v == old(reader.unread)[2..6];
        r := Ok([IoElement(Itoa(id), Round(Uint32(v) as real), 0.0)]);
      case _ =>
        var v :- reader.Take(8);
        assert v == old(reader.unread)[2..10];
        r := Ok(DecodeEight(id, v));
    }
  }

  lemma DecodeElementsAppend(k: nat, es: seq<Element>, e: Element)
    requires k < STAGES && OfWidth(es, Width(k)) && |e.value| == Width(k)
    ensures OfWidth(es + [e], Width(k)) && DecodeElements(k, es + [e]) == DecodeElements(k, es) + DecodeElement(k, e)
  {
    hide DecodeElement, Width;
    if es == [] {
      assert [e][1..] == [];
      assert es + [e] == [e];
    } else {
      assert (es + [e])[1..] == es[1..] + [e];
      DecodeElementsAppend(k, es[1..], e);
    }
  }

  lemma PrependTwice<T>(a: seq<T>, b: seq<T>, r: Read<seq<T>>)
    ensures Prepend(a, Prepend(b, r)) == Prepend(a + b, r)
  {
    if r.Got? { assert a + (b + r.value) == (a + b) + r.value; }
  }

  lemma PrependEnds<T>(a: seq<T>, r: Read<seq<T>>, rest: seq<uint8>)
    ensures Prepend([], r) == r && Prepend(a, Got([], rest)) == Got(a, rest)
  {
    if r.Got? { assert [] + r.value == r.value; }
    assert a + [] == a;
  }

  lemma {:induction false} DecodeStagesAppend(stages: seq<seq<Element>>, es: seq<Element>, n: nat)
    requires FitsFirst(stages, n)
    ensures FitsFirst(stages + [es], n) && DecodeStages(stages + [es], n) == DecodeStages(stages, n)
    decreases n
  {
    hide FitsStage, Width, DecodeElements;
    assert forall i: nat | i < n :: (stages + [es])[i] == stages[i];
    if n == 0 {
    } else {
      DecodeStagesAppend(stages, es, n - 1);
    }
  }

  /** The inner loop of the element parser: the counted elements of one stage, appended to `elements`. */
  method ParseStage(reader: Buffer, stage: nat, elements: seq<IoElement>) returns (r: Result<seq<IoElement>>)
    requires 1 <= stage <= STAGES
    modifies reader
    ensures match ReadStage(old(reader.unread), Width(stage - 1))
            case Short => r == Err(Panic)
            case Got(es, rest) =>
              FitsStage(es, Width(stage - 1)) && reader.unread == rest
              && r == Ok(elements + DecodeElements(stage - 1, es))
  {
    hide Uint16, DecodeElement, Width;
    ghost var k, w, s := stage - 1, Width(stage - 1), reader.unread;
    var countBytes :- reader.Take(2);
    var stageElements := Uint16(countBytes);
    ghost var body, raw: seq<Element> := reader.unread, [];
    var elementIndex: uint16 := 0;
    var all := elements;
    PrependEnds([], ReadElements(body, w, stageElements), body);
    while elementIndex < stageElements
      invariant elementIndex <= stageElements && |raw| == elementIndex
      invariant ReadElements(body, w, stageElements)
             == Prepend(raw, ReadElements(reader.unread, w, stageElements - elementIndex))
      invariant OfWidth(raw, w) && all == elements + DecodeElements(k, raw)
    {
      ghost var at := reader.unread;
      var values :- ParseElement(reader, stage);
      all := all + values;
      ghost var e := Element(Uint16(at[..2]), at[2..2 + w]);
      PrependTwice(raw, [e], ReadElements(reader.unread, w, stageElements - elementIndex - 1));
      DecodeElementsAppend(k, raw, e);
      raw := raw + [e];
      elementIndex := elementIndex + 1;
    }
    PrependEnds(raw, Short, reader.unread);
    r := Ok(all);
  }

  /** The elements of a record: the total, four stages of counted elements, and the `nx` field. */
  method ParseIOElements(reader: Buffer) returns (r: Result<seq<IoElement>>)
    modifies reader
    ensures var s := old(reader.unread);
            if |s| < 2 || ReadStages(s[2..], 0).Short? then r == Err(Panic)
            else
              var Got(stages, rest) := ReadStages(s[2..], 0);
              FitsFirst(stages, STAGES) && r == Ok(DecodeStages(stages, STAGES))
              && reader.unread == rest[if |rest| < 2 then |rest| else 2..]
  {
    hide DecodeElements, FitsStage, Width, ReadStage;
    var totalElements :- reader.Take(2);
    var elements: seq<IoElement> := [];
    ghost var start, done := reader.unread, [];
    PrependEnds([], ReadStages(start, 0), start);
    var stage := 1;
    while stage <= 4
      invariant 1 <= stage <= 5 && |done| == stage - 1
      invariant ReadStages(start, 0) == Prepend(done, ReadStages(reader.unread, stage - 1))
      invariant FitsFirst(done, stage - 1) && elements == DecodeStages(done, stage - 1)
    {
      ghost var s := reader.unread;
      elements :- ParseStage(reader, stage, elements);
      ghost var es := ReadStage(s, Width(stage - 1)).value;
      PrependTwice(done, [es], ReadStages(reader.unread, stage));
      DecodeStagesAppend(done, es, stage - 1);
      done := done + [es];
      stage := stage + 1;
    }
    PrependEnds(done, Short, reader.unread);
    var nx := reader.Next(2);
    r := Ok(elements);
  }

  /** The fixed part of a record, field by field. */
  method ParseHead(reader: Buffer) returns (r: Result<Head>)
    modifies reader
    ensures var s := old(reader.unread);
            if |s| < 26 then r == Err(Panic) else r == Ok(HeadOf(s)) && reader.unread == s[26..]
  {
    hide Uint16, Uint32, Uint64;
    ghost var s := reader.unread;
    var timestamp :- reader.Field(8, s, 0);
    var priority :- reader.Field(1, s, 8);
    var longitude :- reader.Field(4, s, 9);
    var latitude :- reader.Field(4, s, 13);
    var altitude :- reader.Field(2, s, 17);
    var angle :- reader.Field(2, s, 19);
    var satellites :- reader.Field(1, s, 21);
    var speed :- reader.Field(2, s, 22);
    var eventId :- reader.Field(2, s, 24);
    r := Ok(Head(Uint64(timestamp), priority[0], Uint32(longitude), Uint32(latitude), Uint16(altitude),
                 Uint16(angle), satellites[0], Uint16(speed), Uint16(eventId)));
  }

  /** The loop body of the record parser. */
  method ParseRecord(reader: Buffer, imei: seq<uint8>) returns (r: Result<Point>)
    modifies reader
    ensures match ReadRecord(old(reader.unread))
            case Short => r == Err(Panic)
            case Got(raw, rest) =>
              FitsStages(raw.stages, 0) && r == Ok(DecodeRecord(raw, imei)) && reader.unread == rest
  {
    hide Uint16, HeadOf, ReadStages, FitsStages, FitsFirst, DecodeStages, Coordinate;
    ghost var s := reader.unread;
    var h :- ParseHead(reader);
    var elements :- ParseIOElements(reader);
    assert s[26..][2..] == s[28..];
    StagesSound(s[28..], 0);
    r := Ok(Point(imei, h.timestamp, h.priority, h.eventId,
                  Gps(Coordinate(h.longitude), Coordinate(h.latitude), h.altitude, h.angle, h.satellites, h.speed),
                  elements));
  }

  lemma DecodeRecordsAppend(rs: seq<Record>, r: Record, imei: seq<uint8>)
    requires (forall x <- rs :: FitsStages(x.stages, 0)) && FitsStages(r.stages, 0)
    ensures DecodeRecords(rs + [r], imei) == DecodeRecords(rs, imei) + [DecodeRecord(r, imei)]
  {
    hide DecodeRecord, FitsStages;
  }

  method ParseCodec8EPacket(reader: Buffer, numberOfData: uint8, imei: seq<uint8>) returns (r: Result<seq<Point>>)
    modifies reader
    ensures match ReadRecords(old(reader.unread), numberOfData)
            case Short => r == Err(Panic)
            case Got(rs, rest) =>
              (forall x <- rs :: FitsStages(x.stages, 0)) && r == Ok(DecodeRecords(rs, imei))
              && reader.unread == rest
  {
    hide ReadRecord, FitsStages, DecodeRecord;
    var points: seq<Point> := [];
    ghost var start, raws: seq<Record> := reader.unread, [];
    PrependEnds([], ReadRecords(start, numberOfData), start);
    var i: uint8 := 0;
    while i < numberOfData
      invariant i <= numberOfData
      invariant ReadRecords(start, numberOfData) == Prepend(raws, ReadRecords(reader.unread, numberOfData - i))
      invariant (forall x <- raws :: FitsStages(x.stages, 0)) && points == DecodeRecords(raws, imei)
    {
      ghost var s := reader.unread;
      var point :- ParseRecord(reader, imei);
      ghost var raw := ReadRecord(s).value;
      PrependTwice(raws, [raw], ReadRecords(reader.unread, numberOfData - i - 1));
      DecodeRecordsAppend(raws, raw, imei);
      points := points + [point];
      raws := raws + [raw];
      i := i + 1;
    }
    PrependEnds(raws, Short, reader.unread);
    r := Ok(points);
  }

  datatype Header = Header(dataLength: uint32, codecId: uint8, numberOfData: uint8)

  method ParseHeader(reader: Buffer) returns (r: Result<Header>)
    modifies reader
    ensures var s := old(reader.unread);
            if |s| < 4 then r == Err(Panic)
            else if Uint32(s[..4]) != 0 then r == Err(InvalidHeader)
            else if |s| < 10 then r == Err(Panic)
            else r == Ok(Header(Uint32(s[4..8]), s[8], s[9])) && reader.unread == s[10..]
  {
    hide Uint32;
    ghost var s := reader.unread;
    var preamble :- reader.Take(4);
    if Uint32(preamble) != 0 {
      return Err(InvalidHeader);
    }
    var dataLength :- reader.Take(4);
    var codecId :- reader.Take(1);
    var numberOfData :- reader.Take(1);
    assert dataLength == s[4..8] && reader.unread == s[10..];
    r := Ok(Header(Uint32(dataLength), codecId[0], numberOfData[0]));
  }

  /** The packet parser. The transmitted CRC is read and has no influence on the outcome. */
  method ParsePacket(data: seq<uint8>, imei: seq<uint8>) returns (r: Result<seq<Point>>)
    ensures r == Parse(data, imei)
  {
    hide Uint32, ReadRecords, FitsStages, DecodeRecords;
    var reader := new Buffer(data);
    var header :- ParseHeader(reader);
    var points: seq<Point> := [];
    if header.codecId == 0x8e {
      points :- ParseCodec8EPacket(reader, header.numberOfData, imei);
    } else {
      return Err(UnsupportedCodec);
    }
    var numberOfData :- reader.Take(1);
    if numberOfData[0] != header.numberOfData {
      return Err(InvalidNumberOfData);
    }
    var crc :- reader.Take(4);
    r := Ok(points);
  }

  // ---------------------------------------------------------------- what the outcome depends on

  /** Two frames that differ at most in length field, element totals, `nx` fields and CRC. */
  predicate SameReadings(f: Frame, g: Frame) {
    |f.records| == |g.records|
    && forall i | 0 <= i < |f.records| ::
         f.records[i].head == g.records[i].head && f.records[i].stages == g.records[i].stages
  }

  lemma ParseOfFrame(f: Frame, rest: seq<uint8>, imei: seq<uint8>)
    requires Fits(f)
    ensures Parse(Serialise(f) + rest, imei) == Ok(DecodeRecords(f.records, imei))
  {
    hide Serialise, ReadFrame, DecodeRecords, FitsStages;
    FrameComplete(f, rest);
  }

  /**
   Nothing after a complete frame, and neither its length field, totals, `nx` fields nor CRC, changes the
   parsed points. Parsing a whole zeroed read buffer is parsing the bytes received.
   */
  lemma ReadingsDecide(f: Frame, g: Frame, rest: seq<uint8>, rest': seq<uint8>, imei: seq<uint8>)
    requires Fits(f) && Fits(g) && SameReadings(f, g)
    ensures Parse(Serialise(f) + rest, imei) == Parse(Serialise(g) + rest', imei)
  {
    hide Serialise, FitsStages;
    ParseOfFrame(f, rest, imei);
    ParseOfFrame(g, rest', imei);
    assert DecodeRecords(f.records, imei) == DecodeRecords(g.records, imei);
  }

  /** The outcome on a zero-padded buffer is that on the bytes received, unless those were cut short. */
  lemma PaddingIrrelevant(data: seq<uint8>, padding: seq<uint8>, imei: seq<uint8>)
    requires Parse(data, imei) != Err(Panic)
    ensures Parse(data + padding, imei) == Parse(data, imei)
  {
    hide ReadFrame, DecodeRecords, FitsStages;
    VerdictExtends(data, padding);
  }

  // ---------------------------------------------------------------- how many elements come out

  /** Elements that one stage decodes to: one each, except 8-byte elements. */
  function ExpandAll(k: nat, es: seq<Element>): nat {
    if es == [] then 0 else (if k == 3 then Expand(es[0].id) else 1) + ExpandAll(k, es[1..])
  }

  lemma ElementExpands(k: nat, e: Element)
    requires k < STAGES && |e.value| == Width(k)
    ensures |DecodeElement(k, e)| == (if k == 3 then Expand(e.id) else 1)
    ensures 5 * |DecodeElement(k, e)| <= 11 * |SerialiseElement(e)|
  {
    hide EightByteNames, EightByteValues, EightByteNormals, Itoa, OneByteName, TwoByteName, Round;
    NamesExpand(e.id);
  }

  lemma {:induction false} ElementsConserved(k: nat, es: seq<Element>)
    requires k < STAGES && OfWidth(es, Width(k))
    ensures |DecodeElements(k, es)| == ExpandAll(k, es)
    ensures k != 3 ==> ExpandAll(k, es) == |es|
    ensures 5 * ExpandAll(k, es) <= 11 * |SerialiseElements(es)|
  {
    hide DecodeElement, SerialiseElement, Expand, Width;
    if es == [] {
    } else {
      ElementsConserved(k, es[1..]);
      ElementExpands(k, es[0]);
    }
  }

  function StagesSize(stages: seq<seq<Element>>, n: nat): nat
    requires n <= |stages|
  {
    if n == 0 then 0 else StagesSize(stages, n - 1) + |SerialiseStage(stages[n - 1])|
  }

  lemma {:induction false} StagesBound(stages: seq<seq<Element>>, n: nat)
    requires FitsFirst(stages, n)
    ensures 5 * |DecodeStages(stages, n)| <= 11 * (StagesSize(stages, n) - 2 * n)
    decreases n
  {
    hide FitsStage, Width, DecodeElements, SerialiseElements;
    if n == 0 {
    } else {
      StagesBound(stages, n - 1);
      StageWidths(stages[n - 1], Width(n - 1));
      ElementsConserved(n - 1, stages[n - 1]);
    }
  }

  lemma StageWidths(es: seq<Element>, w: nat)
    requires FitsStage(es, w)
    ensures OfWidth(es, w)
  {
  }

  lemma FourStages(stages: seq<seq<Element>>)
    requires |stages| == 4
    ensures |SerialiseStages(stages)| == StagesSize(stages, 4)
  {
    hide SerialiseStage;
    var s1, s2, s3 := stages[1..], stages[2..], stages[3..];
    assert s1[1..] == s2 && s2[1..] == s3 && s3[1..] == [];
    assert |SerialiseStages(s3)| == |SerialiseStage(stages[3])| by { assert SerialiseStages([]) == []; }
    assert |SerialiseStages(s2)| == |SerialiseStage(stages[2])| + |SerialiseStages(s3)|;
    assert |SerialiseStages(s1)| == |SerialiseStage(stages[1])| + |SerialiseStages(s2)|;
    assert StagesSize(stages, 0) == 0;
    assert StagesSize(stages, 2) == StagesSize(stages, 1) + |SerialiseStage(stages[1])|;
    assert StagesSize(stages, 3) == StagesSize(stages, 2) + |SerialiseStage(stages[2])|;
  }

  /** Every element of a record: those of the first three stages one for one, 8-byte ones by their table. */
  lemma RecordConserved(r: Record, imei: seq<uint8>)
    requires FitsRecord(r)
    ensures |DecodeRecord(r, imei).elements|
         == |r.stages[0]| + |r.stages[1]| + |r.stages[2]| + ExpandAll(3, r.stages[3])
    ensures 5 * |DecodeRecord(r, imei).elements| <= 11 * (|SerialiseRecord(r)| - 38)
  {
    hide FitsStage, Width, DecodeElements, SerialiseElements, SerialiseHead;
    AllStagesFit(r.stages);
    StagesBound(r.stages, STAGES);
    FourStages(r.stages);
    DecodeFour(r.stages);
    ElementsConserved(0, r.stages[0]);
    ElementsConserved(1, r.stages[1]);
    ElementsConserved(2, r.stages[2]);
    ElementsConserved(3, r.stages[3]);
  }

  lemma DecodeFour(stages: seq<seq<Element>>)
    requires FitsFirst(stages, 4)
    ensures OfWidth(stages[0], Width(0)) && OfWidth(stages[1], Width(1)) && OfWidth(stages[2], Width(2))
            && OfWidth(stages[3], Width(3))
    ensures DecodeStages(stages, 4)
         == DecodeElements(0, stages[0]) + DecodeElements(1, stages[1]) + DecodeElements(2, stages[2])
            + DecodeElements(3, stages[3])
  {
    hide OfWidth, DecodeElements, Width;
    assert FitsStage(stages[0], Width(0)) && FitsStage(stages[1], Width(1)) && FitsStage(stages[2], Width(2))
           && FitsStage(stages[3], Width(3));
    assert DecodeStages(stages, 1) == DecodeElements(0, stages[0]) by { assert DecodeStages(stages, 0) == []; }
    assert DecodeStages(stages, 2) == DecodeElements(0, stages[0]) + DecodeElements(1, stages[1]);
    assert DecodeStages(stages, 3) == DecodeStages(stages, 2) + DecodeElements(2, stages[2]);
  }

  function TotalElements(ps: seq<Point>): nat {
    if ps == [] then 0 else |ps[0].elements| + TotalElements(ps[1..])
  }

  lemma {:induction false} RecordsBound(rs: seq<Record>, imei: seq<uint8>)
    requires forall r <- rs :: FitsRecord(r)
    ensures forall r <- rs :: FitsStages(r.stages, 0)
    ensures |SerialiseRecords(rs)| >= 38 * |rs|
    ensures 5 * TotalElements(DecodeRecords(rs, imei)) <= 11 * (|SerialiseRecords(rs)| - 38 * |rs|)
  {
    hide SerialiseRecord, DecodeRecord, FitsStages;
    if rs == [] {
    } else {
      RecordsBound(rs[1..], imei);
      RecordConserved(rs[0], imei);
      assert DecodeRecords(rs, imei)[1..] == DecodeRecords(rs[1..], imei);
      assert DecodeRecords(rs, imei)[0] == DecodeRecord(rs[0], imei);
    }
  }

  /** An accepted buffer pays 38 bytes per record and at least 5/11 of a byte per element. */
  lemma AcceptedBound(data: seq<uint8>, imei: seq<uint8>)
    requires Parse(data, imei).Ok?
    ensures var ps := Parse(data, imei).value;
            5 * TotalElements(ps) <= 11 * (|data| - 15 - 38 * |ps|)
            && |data| >= 15 + 38 * |ps|
            && (|data| <= 2048 ==> |ps| <= 53)
  {
    hide ReadFrame, SerialiseRecords, SerialiseHeader, DecodeRecords, FitsStages;
    FrameSound(data);
    RecordsBound(ReadFrame(data).value.frame.records, imei);
  }
}
