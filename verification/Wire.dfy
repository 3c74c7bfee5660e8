/**
 The Codec 8 Extended packet as bytes: a frame type that keeps every byte, the serialiser that is the
 reference for what a packet looks like, and the scan of a byte string that the packet parser performs.

 The two are proved inverse to each other, so a byte string is accepted exactly when it starts with a
 serialised frame, and that frame is unique.
 */
module Wire {
  import opened Bytes

  /** One IO element as transmitted: its id and its value bytes. */
  datatype Element = Element(id: uint16, value: seq<uint8>)

  /** The 26 fixed bytes of a record. */
  datatype Head = Head(
    timestamp: uint64, priority: uint8, longitude: uint32, latitude: uint32,
    altitude: uint16, angle: uint16, satellites: uint8, speed: uint16, eventId: uint16)

  /** `stages` holds the 1-, 2-, 4- and 8-byte elements in that order. */
  datatype Record = Record(head: Head, total: uint16, stages: seq<seq<Element>>, nx: seq<uint8>)

  datatype Frame = Frame(dataLength: uint32, records: seq<Record>, crc: uint32)

  const CODEC_8_EXTENDED: uint8 := 0x8e
  const STAGES := 4

  /** Value bytes of an element of stage `k`, counting stages from 0. */
  function Width(k: nat): (w: nat)
    requires k < STAGES
  {
    if k == 0 then 1 else if k == 1 then 2 else if k == 2 then 4 else 8
  }

  // ---------------------------------------------------------------- serialiser

  function SerialiseHead(h: Head): (s: seq<uint8>)
    ensures |s| == 26
  {
    PutUint64(h.timestamp) + ([h.priority] + PutUint32(h.longitude) + PutUint32(h.latitude)
    + (PutUint16(h.altitude) + PutUint16(h.angle) + [h.satellites] + PutUint16(h.speed) + PutUint16(h.eventId)))
  }

  function SerialiseElement(e: Element): seq<uint8> {
    PutUint16(e.id) + e.value
  }

  function SerialiseElements(es: seq<Element>): seq<uint8> {
    if es == [] then [] else SerialiseElement(es[0]) + SerialiseElements(es[1..])
  }

  /** The count is a 16-bit field: a longer stage is written with its count reduced modulo 65536. */
  function SerialiseStage(es: seq<Element>): seq<uint8> {
    PutUint16(|es| % 0x1_0000) + SerialiseElements(es)
  }

  function SerialiseStages(stages: seq<seq<Element>>): seq<uint8> {
    if stages == [] then [] else SerialiseStage(stages[0]) + SerialiseStages(stages[1..])
  }

  function SerialiseRecord(r: Record): seq<uint8> {
    SerialiseHead(r.head) + PutUint16(r.total) + (SerialiseStages(r.stages) + r.nx)
  }

  function SerialiseRecords(rs: seq<Record>): seq<uint8> {
    if rs == [] then [] else SerialiseRecord(rs[0]) + SerialiseRecords(rs[1..])
  }

  function SerialiseHeader(dataLength: uint32, codec: uint8, count: uint8): (s: seq<uint8>)
    ensures |s| == 10
  {
    [0, 0, 0, 0] + PutUint32(dataLength) + [codec, count]
  }

  /** The count of records is an 8-bit field, written before and after them. */
  function Serialise(f: Frame): seq<uint8> {
    var n: uint8 := |f.records| % 0x100;
    SerialiseHeader(f.dataLength, CODEC_8_EXTENDED, n) + (SerialiseRecords(f.records) + ([n] + PutUint32(f.crc)))
  }

  // ---------------------------------------------------------------- frames whose counts fit their fields

  predicate OfWidth(es: seq<Element>, width: nat) {
    forall e <- es :: |e.value| == width
  }

  predicate FitsStage(es: seq<Element>, width: nat) {
    |es| < 0x1_0000 && OfWidth(es, width)
  }

  /** The stages from number `k` on. */
  predicate FitsStages(stages: seq<seq<Element>>, k: nat)
    requires k <= STAGES
  {
    |stages| == STAGES - k && forall i | 0 <= i < |stages| :: FitsStage(stages[i], Width(k + i))
  }

  predicate FitsRecord(r: Record) {
    FitsStages(r.stages, 0) && |r.nx| == 2
  }

  predicate Fits(f: Frame) {
    |f.records| < 0x100 && forall r <- f.records :: FitsRecord(r)
  }

  // ---------------------------------------------------------------- the scan

  /** What reading a value off the front of a byte string gives: `Short` when the bytes run out. */
  datatype Read<+T> = Got(value: T, rest: seq<uint8>) | Short

  function Prepend<T>(front: seq<T>, r: Read<seq<T>>): Read<seq<T>> {
    match r
    case Short => Short
    case Got(back, rest) => Got(front + back, rest)
  }

  function HeadOf(s: seq<uint8>): Head
    requires |s| >= 26
  {
    Head(Uint64(s[..8]), s[8], Uint32(s[9..13]), Uint32(s[13..17]), Uint16(s[17..19]), Uint16(s[19..21]),
         s[21], Uint16(s[22..24]), Uint16(s[24..26]))
  }

  function ReadElements(s: seq<uint8>, width: nat, count: nat): Read<seq<Element>>
    decreases count
  {
    if count == 0 then Got([], s)
    else if |s| < 2 + width then Short
    else Prepend([Element(Uint16(s[..2]), s[2..2 + width])], ReadElements(s[2 + width..], width, count - 1))
  }

  function ReadStage(s: seq<uint8>, width: nat): Read<seq<Element>> {
    if |s| < 2 then Short else ReadElements(s[2..], width, Uint16(s[..2]))
  }

  function ReadStages(s: seq<uint8>, k: nat): Read<seq<seq<Element>>>
    requires k <= STAGES
    decreases STAGES - k
  {
    if k == STAGES then Got([], s)
    else
      match ReadStage(s, Width(k))
      case Short => Short
      case Got(es, rest) => Prepend([es], ReadStages(rest, k + 1))
  }

  /** The two `nx` bytes are skipped without a check: at the end of the buffer fewer may be there. */
  function ReadRecord(s: seq<uint8>): Read<Record> {
    if |s| < 28 then Short
    else
      match ReadStages(s[28..], 0)
      case Short => Short
      case Got(stages, rest) =>
        var n := if |rest| < 2 then |rest| else 2;
        Got(Record(HeadOf(s), Uint16(s[26..28]), stages, rest[..n]), rest[n..])
  }

  function ReadRecords(s: seq<uint8>, count: nat): Read<seq<Record>>
    decreases count
  {
    if count == 0 then Got([], s)
    else
      match ReadRecord(s)
      case Short => Short
      case Got(r, rest) => Prepend([r], ReadRecords(rest, count - 1))
  }

  /** `Panic` is Go's index-out-of-range panic when the buffer runs out. */
  datatype Failure = Panic | InvalidHeader | UnsupportedCodec | InvalidNumberOfData

  datatype Result<+T> = Ok(value: T) | Err(error: Failure) {
    predicate IsFailure() {
      Err?
    }

    function PropagateFailure<U>(): Result<U>
      requires Err?
    {
      Err(error)
    }

    function Extract(): T
      requires Ok?
    {
      value
    }
  }

  datatype Scan = Scan(frame: Frame, rest: seq<uint8>)

  function ReadFrame(data: seq<uint8>): Result<Scan> {
    if |data| < 4 then Err(Panic)
    else if Uint32(data[..4]) != 0 then Err(InvalidHeader)
    else if |data| < 10 then Err(Panic)
    else if data[8] != CODEC_8_EXTENDED then Err(UnsupportedCodec)
    else
      match ReadRecords(data[10..], data[9])
      case Short => Err(Panic)
      case Got(records, rest) =>
        if |rest| < 1 then Err(Panic)
        else if rest[0] != data[9] then Err(InvalidNumberOfData)
        else if |rest| < 5 then Err(Panic)
        else Ok(Scan(Frame(Uint32(data[4..8]), records, Uint32(rest[1..5])), rest[5..]))
  }

  // ---------------------------------------------------------------- what is accepted is a serialised frame

  lemma Splice(s: seq<uint8>, x: seq<uint8>, tail: seq<uint8>, y: seq<uint8>, rest: seq<uint8>)
    requires s == x + tail && tail == y + rest
    ensures s == (x + y) + rest
  {
  }

  lemma Unsplice(x: seq<uint8>, y: seq<uint8>, rest: seq<uint8>)
    ensures (x + y) + rest == x + (y + rest)
  {
  }

  lemma HeadSound(s: seq<uint8>)
    requires |s| >= 26
    ensures SerialiseHead(HeadOf(s)) == s[..26]
  {
    hide PutUint16, PutUint32, PutUint64, Uint16, Uint32, Uint64;
    PutUint64Inverts(s[..8]);
    PutUint32Inverts(s[9..13]);
    PutUint32Inverts(s[13..17]);
    PutUint16Inverts(s[17..19]);
    PutUint16Inverts(s[19..21]);
    PutUint16Inverts(s[22..24]);
    PutUint16Inverts(s[24..26]);
  }

  lemma HeadComplete(h: Head, rest: seq<uint8>)
    ensures HeadOf(SerialiseHead(h) + rest) == h
  {
    hide PutUint16, PutUint32, PutUint64, Uint16, Uint32, Uint64;
    var s := SerialiseHead(h) + rest;
    assert s[..8] == PutUint64(h.timestamp);
    assert s[9..13] == PutUint32(h.longitude);
    assert s[13..17] == PutUint32(h.latitude);
    assert s[17..19] == PutUint16(h.altitude);
    assert s[19..21] == PutUint16(h.angle);
    assert s[22..24] == PutUint16(h.speed);
    assert s[24..26] == PutUint16(h.eventId);
  }

  /** Where each field of the head stands, as a number of its bytes. */
  lemma HeadFields(s: seq<uint8>)
    requires |s| >= 26
    ensures var h := HeadOf(s);
            h.timestamp == BigEndian(s[..8]) && h.priority == s[8]
            && h.longitude == BigEndian(s[9..13]) && h.latitude == BigEndian(s[13..17])
            && h.altitude == BigEndian(s[17..19]) && h.angle == BigEndian(s[19..21]) && h.satellites == s[21]
            && h.speed == BigEndian(s[22..24]) && h.eventId == BigEndian(s[24..26])
  {
    hide Uint16, Uint32, Uint64, BigEndian;
    Uint64Is(s[..8]);
    Uint32Is(s[9..13]);
    Uint32Is(s[13..17]);
    Uint16Is(s[17..19]);
    Uint16Is(s[19..21]);
    Uint16Is(s[22..24]);
    Uint16Is(s[24..26]);
  }

  lemma ElementSound(s: seq<uint8>, width: nat)
    requires |s| >= 2 + width
    ensures s == SerialiseElement(Element(Uint16(s[..2]), s[2..2 + width])) + s[2 + width..]
  {
    PutUint16Inverts(s[..2]);
  }

  lemma {:induction false} ElementsSound(s: seq<uint8>, width: nat, count: nat)
    requires ReadElements(s, width, count).Got?
    ensures var Got(es, rest) := ReadElements(s, width, count);
            |es| == count && OfWidth(es, width) && s == SerialiseElements(es) + rest
    decreases count
  {
    hide SerialiseElement, Uint16;
    if count == 0 {
    } else {
      var e, tail := Element(Uint16(s[..2]), s[2..2 + width]), s[2 + width..];
      ElementsSound(tail, width, count - 1);
      var Got(es, rest) := ReadElements(tail, width, count - 1);
      ElementSound(s, width);
      assert ([e] + es)[1..] == es;
      Splice(s, SerialiseElement(e), tail, SerialiseElements(es), rest);
    }
  }

  lemma {:induction false} ElementsComplete(es: seq<Element>, width: nat, rest: seq<uint8>)
    requires OfWidth(es, width)
    ensures ReadElements(SerialiseElements(es) + rest, width, |es|) == Got(es, rest)
  {
    var s := SerialiseElements(es) + rest;
    if es == [] {
      assert s == rest;
    } else {
      var later := SerialiseElements(es[1..]) + rest;
      ElementsComplete(es[1..], width, rest);
      Unsplice(SerialiseElement(es[0]), SerialiseElements(es[1..]), rest);
      assert s[..2] == PutUint16(es[0].id) && s[2..2 + width] == es[0].value && s[2 + width..] == later;
      assert [es[0]] + es[1..] == es;
    }
  }

  lemma StageSound(s: seq<uint8>, width: nat)
    requires ReadStage(s, width).Got?
    ensures var Got(es, rest) := ReadStage(s, width);
            FitsStage(es, width) && s == SerialiseStage(es) + rest
  {
    hide PutUint16, Uint16;
    ElementsSound(s[2..], width, Uint16(s[..2]));
    var Got(es, rest) := ReadStage(s, width);
    PutUint16Inverts(s[..2]);
    Splice(s, s[..2], s[2..], SerialiseElements(es), rest);
  }

  lemma StageComplete(es: seq<Element>, width: nat, rest: seq<uint8>)
    requires FitsStage(es, width)
    ensures ReadStage(SerialiseStage(es) + rest, width) == Got(es, rest)
  {
    hide PutUint16, Uint16;
    Unsplice(PutUint16(|es|), SerialiseElements(es), rest);
    ElementsComplete(es, width, rest);
  }

  lemma {:induction false} StagesSound(s: seq<uint8>, k: nat)
    requires k <= STAGES && ReadStages(s, k).Got?
    ensures var Got(stages, rest) := ReadStages(s, k);
            FitsStages(stages, k) && s == SerialiseStages(stages) + rest
    decreases STAGES - k
  {
    hide ReadStage, SerialiseStage, FitsStage, Width;
    if k < STAGES {
      StageSound(s, Width(k));
      var Got(es, tail) := ReadStage(s, Width(k));
      StagesSound(tail, k + 1);
      var Got(later, rest) := ReadStages(tail, k + 1);
      assert ([es] + later)[1..] == later;
      FitsStagesFrom(es, later, k);
      Splice(s, SerialiseStage(es), tail, SerialiseStages(later), rest);
    }
  }

  lemma FitsStagesFrom(es: seq<Element>, later: seq<seq<Element>>, k: nat)
    requires k < STAGES
    ensures FitsStages([es] + later, k) <==> FitsStage(es, Width(k)) && FitsStages(later, k + 1)
  {
    hide FitsStage, Width;
    var all := [es] + later;
    if FitsStages(all, k) {
      assert FitsStage(all[0], Width(k + 0));
      forall i | 0 <= i < |later| ensures FitsStage(later[i], Width(k + 1 + i)) {
        assert FitsStage(all[i + 1], Width(k + (i + 1)));
      }
    }
    if FitsStage(es, Width(k)) && FitsStages(later, k + 1) {
      forall i | 0 <= i < |all| ensures FitsStage(all[i], Width(k + i)) {
        if i > 0 { assert FitsStage(later[i - 1], Width(k + 1 + (i - 1))); }
      }
    }
  }

  lemma {:induction false} StagesComplete(stages: seq<seq<Element>>, k: nat, rest: seq<uint8>)
    requires k <= STAGES && FitsStages(stages, k)
    ensures ReadStages(SerialiseStages(stages) + rest, k) == Got(stages, rest)
    decreases STAGES - k
  {
    hide ReadStage, SerialiseStage, FitsStage, Width, FitsStages;
    if k == STAGES {
      assert stages == [] by { NoStages(stages); }
      assert SerialiseStages(stages) + rest == rest;
    } else {
      assert stages != [] by { SomeStage(stages, k); }
      assert [stages[0]] + stages[1..] == stages;
      FitsStagesFrom(stages[0], stages[1..], k);
      StagesComplete(stages[1..], k + 1, rest);
      StageComplete(stages[0], Width(k), SerialiseStages(stages[1..]) + rest);
      Unsplice(SerialiseStage(stages[0]), SerialiseStages(stages[1..]), rest);
    }
  }

  lemma NoStages(stages: seq<seq<Element>>)
    requires FitsStages(stages, STAGES)
    ensures stages == []
  {
  }

  lemma SomeStage(stages: seq<seq<Element>>, k: nat)
    requires k < STAGES && FitsStages(stages, k)
    ensures stages != []
  {
  }

  lemma RecordSound(s: seq<uint8>)
    requires ReadRecord(s).Got?
    ensures var Got(r, rest) := ReadRecord(s);
            FitsStages(r.stages, 0) && (|r.nx| == 2 || rest == []) && s == SerialiseRecord(r) + rest
  {
    hide PutUint16, Uint16, SerialiseHead, HeadOf, ReadStages, SerialiseStages, FitsStages;
    HeadSound(s);
    PutUint16Inverts(s[26..28]);
    StagesSound(s[28..], 0);
    var Got(r, rest) := ReadRecord(s);
    var Got(stages, tail) := ReadStages(s[28..], 0);
    Splice(s[28..], SerialiseStages(stages), tail, r.nx, rest);
    Splice(s, s[..26] + s[26..28], s[28..], SerialiseStages(stages) + r.nx, rest);
  }

  lemma RecordComplete(r: Record, rest: seq<uint8>)
    requires FitsRecord(r)
    ensures ReadRecord(SerialiseRecord(r) + rest) == Got(r, rest)
  {
    hide PutUint16, Uint16, SerialiseHead, HeadOf, ReadStages, SerialiseStages, FitsStages;
    var s := SerialiseRecord(r) + rest;
    var body := SerialiseStages(r.stages) + r.nx;
    Unsplice(SerialiseHead(r.head) + PutUint16(r.total), body, rest);
    Unsplice(SerialiseHead(r.head), PutUint16(r.total), body + rest);
    Unsplice(SerialiseStages(r.stages), r.nx, rest);
    HeadComplete(r.head, PutUint16(r.total) + (body + rest));
    assert s[26..28] == PutUint16(r.total);
    assert s[28..] == SerialiseStages(r.stages) + (r.nx + rest);
    StagesComplete(r.stages, 0, r.nx + rest);
  }

  lemma {:induction false} RecordsSound(s: seq<uint8>, count: nat)
    requires ReadRecords(s, count).Got?
    ensures var Got(rs, rest) := ReadRecords(s, count);
            |rs| == count && s == SerialiseRecords(rs) + rest && (rest != [] ==> forall r <- rs :: FitsRecord(r))
    decreases count
  {
    hide SerialiseRecord, ReadRecord, FitsStages;
    if count == 0 {
    } else {
      RecordSound(s);
      var Got(r, tail) := ReadRecord(s);
      RecordsSound(tail, count - 1);
      var Got(rs, rest) := ReadRecords(tail, count - 1);
      assert ([r] + rs)[1..] == rs;
      Splice(s, SerialiseRecord(r), tail, SerialiseRecords(rs), rest);
    }
  }

  lemma {:induction false} RecordsComplete(rs: seq<Record>, rest: seq<uint8>)
    requires forall r <- rs :: FitsRecord(r)
    ensures ReadRecords(SerialiseRecords(rs) + rest, |rs|) == Got(rs, rest)
  {
    hide SerialiseRecord, ReadRecord, FitsRecord;
    if rs == [] {
      assert SerialiseRecords(rs) + rest == rest;
    } else {
      RecordsComplete(rs[1..], rest);
      Unsplice(SerialiseRecord(rs[0]), SerialiseRecords(rs[1..]), rest);
      RecordComplete(rs[0], SerialiseRecords(rs[1..]) + rest);
      assert [rs[0]] + rs[1..] == rs;
    }
  }

  lemma HeaderOf(data: seq<uint8>)
    requires |data| >= 10 && Uint32(data[..4]) == 0
    ensures data[..10] == SerialiseHeader(Uint32(data[4..8]), data[8], data[9])
  {
    PutUint32Inverts(data[..4]);
    PutUint32Inverts(data[4..8]);
    assert PutUint32(0) == [0, 0, 0, 0];
  }

  lemma HeaderFields(dataLength: uint32, codec: uint8, count: uint8, tail: seq<uint8>)
    ensures var data := SerialiseHeader(dataLength, codec, count) + tail;
            Uint32(data[..4]) == 0 && Uint32(data[4..8]) == dataLength
            && data[8] == codec && data[9] == count && data[10..] == tail
  {
    var data := SerialiseHeader(dataLength, codec, count) + tail;
    assert data[..4] == [0, 0, 0, 0] && data[4..8] == PutUint32(dataLength);
  }

  lemma FrameSound(data: seq<uint8>)
    requires ReadFrame(data).Ok?
    ensures var Scan(f, rest) := ReadFrame(data).value;
            Fits(f) && data == Serialise(f) + rest
  {
    hide PutUint32, Uint32, SerialiseHeader, ReadRecords, SerialiseRecords, FitsRecord;
    RecordsSound(data[10..], data[9]);
    HeaderOf(data);
    var Got(rs, tail) := ReadRecords(data[10..], data[9]);
    PutUint32Inverts(tail[1..5]);
    var end := [tail[0]] + tail[1..5];
    assert tail == end + tail[5..];
    Splice(data[10..], SerialiseRecords(rs), tail, end, tail[5..]);
    Splice(data, data[..10], data[10..], SerialiseRecords(rs) + end, tail[5..]);
  }

  lemma FrameComplete(f: Frame, rest: seq<uint8>)
    requires Fits(f)
    ensures ReadFrame(Serialise(f) + rest) == Ok(Scan(f, rest))
  {
    hide PutUint32, Uint32, SerialiseHeader, ReadRecords, SerialiseRecords, FitsRecord;
    var n: uint8 := |f.records|;
    var end := [n] + PutUint32(f.crc);
    var header, body := SerialiseHeader(f.dataLength, CODEC_8_EXTENDED, n), SerialiseRecords(f.records);
    Unsplice(header, body + end, rest);
    Unsplice(body, end, rest);
    HeaderFields(f.dataLength, CODEC_8_EXTENDED, n, body + (end + rest));
    RecordsComplete(f.records, end + rest);
    assert (end + rest)[1..5] == PutUint32(f.crc) && (end + rest)[5..] == rest;
  }

  lemma FrameAtFront(f: Frame, data: seq<uint8>)
    requires Fits(f) && Serialise(f) <= data
    ensures ReadFrame(data) == Ok(Scan(f, data[|Serialise(f)|..]))
  {
    hide Serialise, ReadFrame, Fits;
    FrameComplete(f, data[|Serialise(f)|..]);
    assert Serialise(f) + data[|Serialise(f)|..] == data;
  }

  /** The two errors of the header, and what an accepted buffer starts with. */
  lemma HeaderVerdicts(data: seq<uint8>)
    ensures ReadFrame(data) == Err(InvalidHeader) <==> |data| >= 4 && data[..4] != [0, 0, 0, 0]
    ensures ReadFrame(data) == Err(UnsupportedCodec)
       <==> |data| >= 10 && data[..4] == [0, 0, 0, 0] && data[8] != 0x8e
    ensures ReadFrame(data).Ok? ==>
              var f := ReadFrame(data).value.frame;
              |data| >= 15 && data[..4] == [0, 0, 0, 0] && BigEndian(data[4..8]) == f.dataLength
              && data[8] == 0x8e && data[9] == |f.records|
  {
    hide ReadRecords, Uint32, PutUint32, BigEndian;
    if |data| >= 4 {
      assert Uint32(data[..4]) == 0 <==> data[..4] == [0, 0, 0, 0] by { ZeroIs(data[..4]); }
    }
    if ReadFrame(data).Ok? {
      RecordsSound(data[10..], data[9]);
      Uint32Is(data[4..8]);
    }
  }

  lemma ZeroIs(s: seq<uint8>)
    requires |s| == 4
    ensures Uint32(s) == 0 <==> s == [0, 0, 0, 0]
  {
    PutUint32Inverts(s);
    assert PutUint32(0) == [0, 0, 0, 0];
  }

  /** The accepted byte strings are exactly those that start with the serialisation of a fitting frame. */
  lemma AcceptedIffFramed(data: seq<uint8>)
    ensures ReadFrame(data).Ok? <==> exists f: Frame :: Fits(f) && Serialise(f) <= data
  {
    hide Serialise, ReadFrame, Fits;
    if ReadFrame(data).Ok? {
      FrameSound(data);
      var f := ReadFrame(data).value.frame;
      assert Fits(f) && Serialise(f) <= data;
    }
    forall f: Frame | Fits(f) && Serialise(f) <= data ensures ReadFrame(data).Ok? {
      FrameAtFront(f, data);
    }
  }

  /** No serialised frame is a prefix of another one, so the frame at the front of a buffer is unique. */
  lemma FrameUnique(f: Frame, g: Frame, data: seq<uint8>)
    requires Fits(f) && Fits(g) && Serialise(f) <= data && Serialise(g) <= data
    ensures f == g
  {
    hide Serialise, ReadFrame, Fits;
    FrameAtFront(f, data);
    FrameAtFront(g, data);
  }

  // ---------------------------------------------------------------- where the elements stand

  lemma {:induction false} ElementPlace(es: seq<Element>, width: nat, i: nat)
    requires OfWidth(es, width) && i < |es|
    ensures |SerialiseElements(es[..i])| == i * (2 + width)
    ensures i * (2 + width) + 2 + width <= |SerialiseElements(es)|
    ensures var s := SerialiseElements(es)[i * (2 + width)..];
            s[..2] == PutUint16(es[i].id) && s[2..2 + width] == es[i].value
    decreases |es|
  {
    hide PutUint16;
    if i == 0 {
      assert SerialiseElements(es) == SerialiseElement(es[0]) + SerialiseElements(es[1..]);
      assert es[..0] == [];
    } else {
      ElementPlace(es[1..], width, i - 1);
      assert i * (2 + width) == (2 + width) + (i - 1) * (2 + width);
      assert es[..i][1..] == es[1..][..i - 1];
      var n := (i - 1) * (2 + width);
      assert SerialiseElements(es)[2 + width + n..] == SerialiseElements(es[1..])[n..];
    }
  }

  /** A stage starts with its count; element `i` stands at its place, the id before the value. */
  lemma StageBytes(es: seq<Element>, width: nat, i: nat)
    requires FitsStage(es, width) && i < |es|
    ensures var s := SerialiseStage(es);
            var at := 2 + i * (2 + width);
            at + 2 + width <= |s| && BigEndian(s[..2]) == |es|
            && BigEndian(s[at..at + 2]) == es[i].id && s[at + 2..at + 2 + width] == es[i].value
  {
    hide PutUint16, BigEndian, SerialiseElements;
    ElementPlace(es, width, i);
    var s, body, n := SerialiseStage(es), SerialiseElements(es), i * (2 + width);
    assert s[2..] == body;
    assert s[2 + n..2 + n + 2] == body[n..][..2] && s[2 + n + 2..2 + n + 2 + width] == body[n..][2..2 + width];
    Uint16Is(s[..2]);
    Uint16Is(PutUint16(es[i].id));
  }

  // ---------------------------------------------------------------- what more bytes change

  lemma RecordsExtend(s: seq<uint8>, count: nat, more: seq<uint8>)
    requires ReadRecords(s, count).Got? && ReadRecords(s, count).rest != []
    ensures var Got(rs, rest) := ReadRecords(s, count);
            ReadRecords(s + more, count) == Got(rs, rest + more)
  {
    hide ReadRecords, SerialiseRecords, FitsRecord;
    RecordsSound(s, count);
    var Got(rs, rest) := ReadRecords(s, count);
    Unsplice(SerialiseRecords(rs), rest, more);
    RecordsComplete(rs, rest + more);
  }

  /** A verdict other than a panic does not depend on the bytes after the ones it was reached on. */
  lemma VerdictExtends(data: seq<uint8>, more: seq<uint8>)
    requires ReadFrame(data) != Err(Panic)
    ensures ReadFrame(data + more)
            == match ReadFrame(data)
               case Ok(Scan(f, rest)) => Ok(Scan(f, rest + more))
               case Err(e) => Err(e)
  {
    hide ReadRecords, Uint32;
    var all := data + more;
    assert all[..4] == data[..4];
    if ReadFrame(data) != Err(InvalidHeader) {
      assert all[4..8] == data[4..8] && all[8] == data[8] && all[9] == data[9];
      if data[8] == CODEC_8_EXTENDED {
        RecordsExtend(data[10..], data[9], more);
        assert all[10..] == data[10..] + more;
        var Got(rs, rest) := ReadRecords(data[10..], data[9]);
        if |rest| >= 5 {
          assert (rest + more)[1..5] == rest[1..5] && (rest + more)[5..] == rest[5..] + more;
        }
      }
    }
  }

  /** The repeated count is what is wrong exactly when the records are followed by another count. */
  lemma InvalidCountIff(data: seq<uint8>)
    ensures ReadFrame(data) == Err(InvalidNumberOfData)
       <==> exists n: uint32, rs: seq<Record>, x: uint8 ::
              |rs| < 0x100 && x != |rs| && (forall r <- rs :: FitsRecord(r))
              && SerialiseHeader(n, CODEC_8_EXTENDED, |rs|) + (SerialiseRecords(rs) + [x]) <= data
  {
    hide Uint32, SerialiseHeader, SerialiseRecords, ReadRecords, FitsRecord;
    if ReadFrame(data) == Err(InvalidNumberOfData) {
      RecordsSound(data[10..], data[9]);
      var Got(rs, rest) := ReadRecords(data[10..], data[9]);
      HeaderOf(data);
      var front := SerialiseHeader(Uint32(data[4..8]), data[8], data[9]);
      Splice(data[10..], SerialiseRecords(rs), rest, [rest[0]], rest[1..]);
      Splice(data, front, data[10..], SerialiseRecords(rs) + [rest[0]], rest[1..]);
    }
    forall n: uint32, rs: seq<Record>, x: uint8 |
      |rs| < 0x100 && x != |rs| && (forall r <- rs :: FitsRecord(r))
      && SerialiseHeader(n, CODEC_8_EXTENDED, |rs|) + (SerialiseRecords(rs) + [x]) <= data
      ensures ReadFrame(data) == Err(InvalidNumberOfData)
    {
      var header, body := SerialiseHeader(n, CODEC_8_EXTENDED, |rs|), SerialiseRecords(rs) + [x];
      var rest := data[|header + body|..];
      Unsplice(header, body, rest);
      Unsplice(SerialiseRecords(rs), [x], rest);
      assert data == header + (body + rest);
      HeaderFields(n, CODEC_8_EXTENDED, |rs|, body + rest);
      RecordsComplete(rs, [x] + rest);
      assert ([x] + rest)[0] == x;
    }
  }

  // ---------------------------------------------------------------- panics are truncations

  /** True when reading stopped at the end of the bytes or beyond it. */
  predicate Exhausted<T>(r: Read<T>) {
    r.Short? || r.rest == []
  }

  lemma PrefixCat(s: seq<uint8>, x: seq<uint8>, tail: seq<uint8>, y: seq<uint8>)
    requires s == x + tail && tail <= y
    ensures s <= x + y
  {
  }

  lemma {:induction false} ElementsPrefix(s: seq<uint8>, width: nat, count: nat) returns (es: seq<Element>)
    requires Exhausted(ReadElements(s, width, count))
    ensures |es| == count && OfWidth(es, width) && s <= SerialiseElements(es)
    decreases count
  {
    hide SerialiseElement;
    if count == 0 {
      es := [];
    } else {
      var padded := if |s| < 2 + width then s + Zeros(2 + width - |s|) else s;
      var tail := if |s| < 2 + width then [] else s[2 + width..];
      var later := ElementsPrefix(tail, width, count - 1);
      var e := Element(Uint16(padded[..2]), padded[2..2 + width]);
      ElementSound(padded, width);
      es := [e] + later;
      assert es[1..] == later;
      if |s| >= 2 + width { PrefixCat(s, SerialiseElement(e), tail, SerialiseElements(later)); }
    }
  }

  lemma StagePrefix(s: seq<uint8>, width: nat) returns (es: seq<Element>)
    requires Exhausted(ReadStage(s, width))
    ensures FitsStage(es, width) && s <= SerialiseStage(es)
  {
    hide Uint16, PutUint16;
    var padded := if |s| < 2 then s + Zeros(2 - |s|) else s;
    var tail := if |s| < 2 then [] else s[2..];
    PutUint16Inverts(padded[..2]);
    es := ElementsPrefix(tail, width, Uint16(padded[..2]));
    if |s| >= 2 { PrefixCat(s, s[..2], tail, SerialiseElements(es)); }
  }

  lemma {:induction false} StagesPrefix(s: seq<uint8>, k: nat) returns (stages: seq<seq<Element>>)
    requires k <= STAGES && Exhausted(ReadStages(s, k))
    ensures FitsStages(stages, k) && s <= SerialiseStages(stages)
    decreases STAGES - k
  {
    hide Width, SerialiseStage, FitsStage;
    if k == STAGES {
      stages := [];
    } else {
      var es, later;
      if ReadStage(s, Width(k)).Short? {
        es := StagePrefix(s, Width(k));
        later := StagesPrefix([], k + 1);
      } else {
        StageSound(s, Width(k));
        es := ReadStage(s, Width(k)).value;
        var tail := ReadStage(s, Width(k)).rest;
        later := StagesPrefix(tail, k + 1);
        PrefixCat(s, SerialiseStage(es), tail, SerialiseStages(later));
      }
      stages := [es] + later;
      assert stages[1..] == later;
      FitsStagesFrom(es, later, k);
    }
  }

  lemma RecordPrefix(s: seq<uint8>) returns (r: Record)
    requires Exhausted(ReadRecord(s))
    ensures FitsRecord(r) && s <= SerialiseRecord(r)
  {
    hide Uint16, PutUint16, HeadOf, SerialiseHead, ReadStages, SerialiseStages, FitsStages;
    var padded := if |s| < 28 then s + Zeros(28 - |s|) else s;
    var tail := if |s| < 28 then [] else s[28..];
    HeadSound(padded);
    PutUint16Inverts(padded[26..28]);
    var stages, nx := [], [0, 0];
    if |s| < 28 {
      assert Exhausted(ReadStages([], 0)) by { NothingToRead(); }
      stages := StagesPrefix([], 0);
    } else if ReadStages(tail, 0).Short? {
      stages := StagesPrefix(tail, 0);
    } else {
      StagesSound(tail, 0);
      stages := ReadStages(tail, 0).value;
      nx := ReadStages(tail, 0).rest + Zeros(2 - |ReadStages(tail, 0).rest|);
      PrefixCat(tail, SerialiseStages(stages), ReadStages(tail, 0).rest, nx);
    }
    r := Record(HeadOf(padded), Uint16(padded[26..28]), stages, nx);
    if |s| >= 28 { PrefixCat(s, s[..26] + s[26..28], tail, SerialiseStages(stages) + nx); }
  }

  lemma NothingToRead()
    ensures ReadStages([], 0).Short? && ReadRecord([]).Short?
  {
  }

  lemma {:induction false} RecordsPrefix(s: seq<uint8>, count: nat) returns (rs: seq<Record>)
    requires Exhausted(ReadRecords(s, count))
    ensures |rs| == count && (forall r <- rs :: FitsRecord(r)) && s <= SerialiseRecords(rs)
    decreases count
  {
    hide ReadRecord, SerialiseRecord, FitsStages;
    if count == 0 {
      rs := [];
    } else {
      var r, later;
      if Exhausted(ReadRecord(s)) {
        r := RecordPrefix(s);
        NothingToRead();
        later := RecordsPrefix([], count - 1);
      } else {
        RecordSound(s);
        r := ReadRecord(s).value;
        later := RecordsPrefix(ReadRecord(s).rest, count - 1);
        PrefixCat(s, SerialiseRecord(r), ReadRecord(s).rest, SerialiseRecords(later));
      }
      rs := [r] + later;
      assert rs[1..] == later;
    }
  }

  /** A panic is a truncation: the header is cut off, or the bytes are the front of a longer frame. */
  lemma PanicIffTruncated(data: seq<uint8>)
    ensures ReadFrame(data) == Err(Panic)
       <==> |data| < 4
            || (Uint32(data[..4]) == 0
                && (|data| < 10 || exists f: Frame :: Fits(f) && data < Serialise(f)))
  {
    hide Uint32, Serialise, Fits, ReadRecords;
    if |data| >= 10 && Uint32(data[..4]) == 0 {
      if ReadFrame(data) == Err(Panic) {
        var f := FramePrefix(data);
      }
      forall f: Frame | Fits(f) && data < Serialise(f) ensures ReadFrame(data) == Err(Panic) {
        TruncatedPanics(data, f);
      }
    }
  }

  lemma TruncatedPanics(data: seq<uint8>, f: Frame)
    requires Fits(f) && data < Serialise(f)
    ensures ReadFrame(data) == Err(Panic)
  {
    hide Serialise, Fits, ReadFrame;
    if ReadFrame(data) != Err(Panic) {
      var more := Serialise(f)[|data|..];
      assert data + more == Serialise(f) + [];
      FrameComplete(f, []);
      VerdictExtends(data, more);
    }
  }

  lemma FramePrefix(data: seq<uint8>) returns (f: Frame)
    requires |data| >= 10 && ReadFrame(data) == Err(Panic)
    ensures Fits(f) && data < Serialise(f)
  {
    hide Uint32, PutUint32, SerialiseHeader, SerialiseRecords, ReadRecords, FitsRecord;
    HeaderOf(data);
    var n, body := data[9], data[10..];
    var header := SerialiseHeader(Uint32(data[4..8]), CODEC_8_EXTENDED, n);
    if Exhausted(ReadRecords(body, n)) {
      var rs := RecordsPrefix(body, n);
      f := Frame(Uint32(data[4..8]), rs, 0);
      PrefixCat(data, header, body, SerialiseRecords(rs));
      Unsplice(header, SerialiseRecords(rs), [n] + PutUint32(0));
    } else {
      RecordsSound(body, n);
      var Got(rs, rest) := ReadRecords(body, n);
      var crc := rest[1..] + Zeros(5 - |rest|);
      f := Frame(Uint32(data[4..8]), rs, Uint32(crc));
      PutUint32Inverts(crc);
      PrefixCat(body, SerialiseRecords(rs), rest, [n] + crc);
      PrefixCat(data, header, body, SerialiseRecords(rs) + ([n] + crc));
    }
  }
}
