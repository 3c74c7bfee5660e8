/**
 What the parser makes of a packet that was cut off. The handler parses its whole zeroed read buffer, so the
 bytes that did not arrive are read as zeros: counts shrink, records end early, and what follows is zero.
 */
module Truncation {
  import opened Bytes
  import opened Wire
  import opened Parser

  // ---------------------------------------------------------------- a string and its cut copy

  /** `t` is `s` up to byte `c` and zero from there on, and not shorter. */
  predicate Cut(s: seq<uint8>, t: seq<uint8>, c: nat) {
    c <= |s| <= |t| && t[..c] == s[..c] && forall i | c <= i < |t| :: t[i] == 0
  }

  /** Where the cut is once `n` bytes have been read. */
  function After(c: nat, n: nat): nat {
    if n <= c then c - n else 0
  }

  /** The copy may be ahead of the original only where both are past the cut. */
  lemma CutAfter(s: seq<uint8>, t: seq<uint8>, c: nat, n: nat, m: nat)
    requires Cut(s, t, c) && m <= n <= |s| && (if n <= c then m == n else c <= m)
    ensures Cut(s[n..], t[m..], After(c, n))
  {
    if n <= c {
      assert t[n..][..c - n] == t[..c][n..] == s[..c][n..] == s[n..][..c - n];
    }
  }

  /** Bytes of `count` elements. */
  function ElementsLength(width: nat, count: nat): nat
    decreases count
  {
    if count == 0 then 0 else 2 + width + ElementsLength(width, count - 1)
  }

  lemma {:induction false} ElementsLengthGrows(width: nat, m: nat, n: nat)
    requires m <= n
    ensures ElementsLength(width, m) <= ElementsLength(width, n)
    decreases n
  {
    if m == n {
    } else {
      ElementsLengthGrows(width, m, n - 1);
    }
  }

  /** Reading elements takes a fixed number of bytes for each. */
  lemma {:induction false} ElementsTake(s: seq<uint8>, width: nat, count: nat)
    ensures ReadElements(s, width, count).Got? <==> ElementsLength(width, count) <= |s|
    ensures ReadElements(s, width, count).Got? ==>
              ReadElements(s, width, count).rest == s[ElementsLength(width, count)..]
    decreases count
  {
    hide Uint16;
    if count == 0 {
      assert s[0..] == s;
    } else if 2 + width <= |s| {
      ElementsTake(s[2 + width..], width, count - 1);
    }
  }

  lemma CountCut(s: seq<uint8>, t: seq<uint8>, c: nat)
    requires Cut(s, t, c) && |s| >= 2
    ensures Uint16(t[..2]) <= Uint16(s[..2])
    ensures c >= 2 ==> Uint16(t[..2]) == Uint16(s[..2])
  {
    if c >= 2 {
      assert t[..2] == t[..c][..2] == s[..c][..2] == s[..2];
    } else if c == 1 {
      assert t[0] == t[..1][0] == s[..1][0] == s[0];
    }
  }

  function StageLength(s: seq<uint8>, width: nat): nat
    requires |s| >= 2
  {
    2 + ElementsLength(width, Uint16(s[..2]))
  }

  lemma StageTakes(s: seq<uint8>, width: nat)
    requires |s| >= 2
    ensures ReadStage(s, width).Got? <==> StageLength(s, width) <= |s|
    ensures ReadStage(s, width).Got? ==> ReadStage(s, width).rest == s[StageLength(s, width)..]
  {
    hide Uint16, ReadElements;
    ElementsTake(s[2..], width, Uint16(s[..2]));
  }

  lemma LengthCut(s: seq<uint8>, t: seq<uint8>, c: nat, width: nat)
    requires Cut(s, t, c) && |s| >= 2
    ensures 2 <= StageLength(t, width) <= StageLength(s, width)
    ensures c >= 2 ==> StageLength(t, width) == StageLength(s, width)
  {
    CountCut(s, t, c);
    hide Uint16;
    ElementsLengthGrows(width, Uint16(t[..2]), Uint16(s[..2]));
  }

  /** A cut stage is read as one with at most as many elements, which ends in the zeros if the original does. */
  lemma StageCut(s: seq<uint8>, t: seq<uint8>, c: nat, width: nat)
    requires Cut(s, t, c) && ReadStage(s, width).Got?
    ensures ReadStage(t, width).Got?
    ensures var rest := ReadStage(s, width).rest;
            |rest| <= |s| && Cut(rest, ReadStage(t, width).rest, After(c, |s| - |rest|))
  {
    assert |s| >= 2;
    hide ReadStage, StageLength;
    LengthCut(s, t, c, width);
    StageTakes(s, width);
    StageTakes(t, width);
    CutAfter(s, t, c, StageLength(s, width), StageLength(t, width));
  }

  lemma {:induction false} StagesCut(s: seq<uint8>, t: seq<uint8>, c: nat, k: nat)
    requires k <= STAGES && Cut(s, t, c) && ReadStages(s, k).Got?
    ensures ReadStages(t, k).Got?
    ensures var rest := ReadStages(s, k).rest;
            |rest| <= |s| && Cut(rest, ReadStages(t, k).rest, After(c, |s| - |rest|))
    decreases STAGES - k
  {
    hide ReadStage, Cut, Width;
    if k == STAGES {
    } else {
      StageCut(s, t, c, Width(k));
      var s', t' := ReadStage(s, Width(k)).rest, ReadStage(t, Width(k)).rest;
      StagesCut(s', t', After(c, |s| - |s'|), k + 1);
    }
  }

  lemma RecordCut(s: seq<uint8>, t: seq<uint8>, c: nat)
    requires Cut(s, t, c) && ReadRecord(s).Got? && ReadRecord(s).rest != []
    ensures ReadRecord(t).Got?
    ensures var rest := ReadRecord(s).rest;
            |rest| <= |s| && Cut(rest, ReadRecord(t).rest, After(c, |s| - |rest|))
  {
    hide ReadStages, HeadOf, Uint16;
    CutAfter(s, t, c, 28, 28);
    assert |s| <= |t|;
    StagesCut(s[28..], t[28..], After(c, 28), 0);
    var s', t' := ReadStages(s[28..], 0).rest, ReadStages(t[28..], 0).rest;
    CutAfter(s', t', After(After(c, 28), |s| - 28 - |s'|), 2, 2);
  }

  lemma {:induction false} RecordsCut(s: seq<uint8>, t: seq<uint8>, c: nat, count: nat)
    requires Cut(s, t, c) && ReadRecords(s, count).Got? && ReadRecords(s, count).rest != []
    ensures ReadRecords(t, count).Got?
    ensures var rest := ReadRecords(s, count).rest;
            |rest| <= |s| && Cut(rest, ReadRecords(t, count).rest, After(c, |s| - |rest|))
    decreases count
  {
    hide ReadRecord, Cut;
    if count == 0 {
    } else {
      var s' := ReadRecord(s).rest;
      NothingToRead();
      assert s' != [] by {
        if s' == [] && count > 1 { assert false; }
      }
      RecordCut(s, t, c);
      var t' := ReadRecord(t).rest;
      RecordsCut(s', t', After(c, |s| - |s'|), count - 1);
    }
  }

  // ---------------------------------------------------------------- a cut packet

  /** The first `n` bytes of the packet, and zeros at least up to where it ended. */
  predicate CutPacket(f: Frame, n: nat, data: seq<uint8>) {
    Cut(Serialise(f), data, n)
  }

  /** No record is announced: this is all that the parser needs to accept no points. */
  predicate EmptyPacket(data: seq<uint8>) {
    |data| >= 15 && Uint32(data[..4]) == 0 && data[8] == CODEC_8_EXTENDED && data[9] == 0 && data[10] == 0
  }

  lemma EmptyIff(data: seq<uint8>, imei: seq<uint8>)
    ensures Parse(data, imei) == Ok([]) <==> EmptyPacket(data)
  {
    hide Uint32, FitsStages;
    if Parse(data, imei) == Ok([]) {
      RecordsSound(data[10..], data[9]);
    }
  }

  lemma LastByteCut(f: Frame, n: nat, data: seq<uint8>)
    requires Fits(f) && CutPacket(f, n, data) && |Serialise(f)| - 4 <= n
    ensures exists crc: uint32 :: Serialise(f.(crc := crc)) <= data
  {
    hide SerialiseHeader, SerialiseRecords, PutUint32, Uint32, FitsRecord;
    var all := |Serialise(f)|;
    var crc := Uint32(data[all - 4..all]);
    PutUint32Inverts(data[all - 4..all]);
    var g := f.(crc := crc);
    var front := SerialiseHeader(f.dataLength, CODEC_8_EXTENDED, |f.records|)
                 + (SerialiseRecords(f.records) + [|f.records| as uint8]);
    assert Serialise(f) == front + PutUint32(f.crc);
    assert Serialise(g) == front + PutUint32(crc);
    assert data[..all - 4] == data[..n][..all - 4] == Serialise(f)[..n][..all - 4] == front;
    assert data[..all] == front + data[all - 4..all];
  }

  /** Cut inside the records or right after them: their number is not found again. */
  lemma RecordsCutOff(f: Frame, n: nat, data: seq<uint8>)
    requires Fits(f) && f.records != [] && CutPacket(f, n, data) && 10 <= n < |Serialise(f)| - 4
    ensures ReadFrame(data) == Err(InvalidNumberOfData)
  {
    hide SerialiseHeader, SerialiseRecords, ReadRecords, PutUint32, Uint32, FitsRecord;
    var s := Serialise(f);
    var count: uint8 := |f.records|;
    var end := [count] + PutUint32(f.crc);
    HeaderFields(f.dataLength, CODEC_8_EXTENDED, count, SerialiseRecords(f.records) + end);
    RecordsComplete(f.records, end);
    HeaderCut(s, data, n);
    CutAfter(s, data, n, 10, 10);
    RecordsCut(s[10..], data[10..], n - 10, count);
    var rest := ReadRecords(data[10..], count).rest;
    assert Cut(end, rest, After(n - 10, |s| - 10 - |end|));
    assert rest[0] == 0;
  }

  lemma HeaderCut(s: seq<uint8>, data: seq<uint8>, n: nat)
    requires Cut(s, data, n) && n >= 10
    ensures data[..4] == s[..4] && data[8] == s[8] && data[9] == s[9]
  {
    assert data[..4] == data[..n][..4] && s[..4] == s[..n][..4];
    assert data[8] == data[..n][8] && s[8] == s[..n][8] && data[9] == data[..n][9] && s[9] == s[..n][9];
  }

  lemma HeaderCutOff(f: Frame, n: nat, data: seq<uint8>)
    requires CutPacket(f, n, data) && n <= 9
    ensures |data| >= 15 && Uint32(data[..4]) == 0 && data[8] == (if n < 9 then 0 else CODEC_8_EXTENDED) && data[9] == 0
            && data[10] == 0
  {
    hide SerialiseRecords, PutUint32, Uint32;
    var s := Serialise(f);
    assert s[..4] == [0, 0, 0, 0];
    assert forall i | 0 <= i < 4 :: data[i] == 0 by {
      forall i | 0 <= i < 4 ensures data[i] == 0 {
        if i < n { assert data[i] == data[..n][i] == s[..n][i] == s[i] == s[..4][i]; }
      }
    }
    assert data[..4] == PutUint32(0) by { ZeroBytes(); }
    assert s[8] == CODEC_8_EXTENDED;
    if n == 9 {
      assert data[8] == data[..n][8] == s[..n][8] == s[8];
    }
  }

  lemma ZeroBytes()
    ensures PutUint32(0) == [0, 0, 0, 0]
  {
  }

  /**
   What becomes of a packet of which only the first `n` bytes arrive, for every `n`: refused with one of two
   errors, taken for a packet without records when just the count is missing, or, when at most the four
   checksum bytes are missing, parsed as if nothing had happened.
   */
  lemma TruncatedPacket(f: Frame, n: nat, data: seq<uint8>, imei: seq<uint8>)
    requires Fits(f) && CutPacket(f, n, data)
    ensures Parse(data, imei)
         == if n < 9 then Err(UnsupportedCodec)
            else if n == 9 then Ok([])
            else if n < |Serialise(f)| - 4 && f.records != [] then Err(InvalidNumberOfData)
            else Ok(DecodeRecords(f.records, imei))
  {
    hide Serialise, ReadFrame, FitsStages, FitsRecord, EmptyPacket, Uint32;
    if n <= 9 {
      HeaderCutOff(f, n, data);
      if n == 9 {
        IsEmpty(data);
        EmptyIff(data, imei);
      } else {
        CodecRefused(data, imei);
      }
    } else if |Serialise(f)| - 4 <= n {
      LastByteCut(f, n, data);
      var crc: uint32 :| Serialise(f.(crc := crc)) <= data;
      var g := f.(crc := crc);
      ParseOfFrame(g, data[|Serialise(g)|..], imei);
      assert Serialise(g) + data[|Serialise(g)|..] == data;
    } else if f.records != [] {
      RecordsCutOff(f, n, data);
    } else {
      NoRecordsCutOff(f, n, data);
      EmptyIff(data, imei);
    }
  }

  lemma IsEmpty(data: seq<uint8>)
    requires |data| >= 15 && Uint32(data[..4]) == 0 && data[8] == CODEC_8_EXTENDED && data[9] == 0 && data[10] == 0
    ensures EmptyPacket(data)
  {
  }

  lemma CodecRefused(data: seq<uint8>, imei: seq<uint8>)
    requires |data| >= 10 && Uint32(data[..4]) == 0 && data[8] != CODEC_8_EXTENDED
    ensures Parse(data, imei) == Err(UnsupportedCodec)
  {
  }

  lemma NoRecordsCutOff(f: Frame, n: nat, data: seq<uint8>)
    requires CutPacket(f, n, data) && n >= 10 && f.records == []
    ensures EmptyPacket(data)
  {
    hide PutUint32, Uint32;
    HeaderCut(Serialise(f), data, n);
    HeaderFields(f.dataLength, CODEC_8_EXTENDED, 0, [0] + PutUint32(f.crc));
    assert SerialiseRecords([]) + ([0] + PutUint32(f.crc)) == [0] + PutUint32(f.crc);
    assert n > 10 ==> data[10] == data[..n][10] == Serialise(f)[..n][10];
  }
}
