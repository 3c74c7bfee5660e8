/** Which blocks crash the server: exactly when the handler's parse panics, or leaves no last point to publish. */
module Crashes {
  import opened Wrappers
  import opened Bytes
  import opened Wire
  import opened Parser
  import opened Truncation
  import opened Encoder
  import opened Session
  import Imei

  /** The block announces no record, or, padded with zeros, more than the buffer holds. */
  ghost predicate CrashingBlock(block: seq<uint8>) {
    EmptyPacket(Pad(block)) || exists f: Frame :: Fits(f) && Pad(block) < Serialise(f)
  }

  lemma FrameStartsWithZeros(f: Frame, data: seq<uint8>)
    requires data < Serialise(f) && |data| >= 4
    ensures Uint32(data[..4]) == 0
  {
    hide SerialiseRecords, PutUint32, Uint32;
    var n: uint8 := |f.records| % 0x100;
    HeaderFields(f.dataLength, CODEC_8_EXTENDED, n, SerialiseRecords(f.records) + ([n] + PutUint32(f.crc)));
    assert data[..4] == Serialise(f)[..4];
  }

  lemma CrashingParse(block: seq<uint8>, imei: seq<uint8>)
    ensures Parse(Pad(block), imei) == Err(Panic) || Parse(Pad(block), imei) == Ok([]) <==> CrashingBlock(block)
  {
    hide Serialise, ReadFrame, Fits, EmptyPacket, FitsStages, Uint32;
    var data := Pad(block);
    EmptyIff(data, imei);
    PanicIffTruncated(data);
    forall f: Frame | Fits(f) && data < Serialise(f) ensures Uint32(data[..4]) == 0 {
      FrameStartsWithZeros(f, data);
    }
  }

  /** The handler of a connection crashes the server exactly when it parses a crashing block. */
  lemma CrashIff(k: Conn, a: Action)
    ensures Move(k, a) == Crash
       <==> a == ParseBlock && k.phase.Parsing? && 0 < k.taken <= |k.uplink| && CrashingBlock(k.uplink[k.taken - 1])
  {
    hide CrashingBlock, Parse, Pad, ClientMove, ReceiveMove, OtherMove;
    NoOtherCrash(k, a);
    if 0 < k.taken <= |k.uplink| {
      CrashingParse(k.uplink[k.taken - 1], k.imei);
    }
  }

  /** Whatever has happened before, the next step crashes the server exactly when it parses a crashing block. */
  lemma NextStepCrashes(steps: seq<Step>, c: nat, a: Action)
    requires Run(steps).Some? && Run(steps).value.crashed.None? && c in Run(steps).value.conns
    ensures var k, after := Run(steps).value.conns[c], Run(steps + [Act(c, a)]);
            (after.Some? && after.value.crashed == Some(c))
            <==> (a == ParseBlock && k.phase.Parsing? && 0 < k.taken <= |k.uplink|
                  && CrashingBlock(k.uplink[k.taken - 1]))
  {
    hide Move, CrashingBlock, Run;
    CrashIff(Run(steps).value.conns[c], a);
    RunNext(steps, Act(c, a));
  }

  /** A cut packet that would fit the buffer crashes the server in one place: right before its number of records. */
  lemma CutPacketCrashes(f: Frame, n: nat, imei: seq<uint8>)
    requires Fits(f) && n <= |Serialise(f)| <= BUFFER_SIZE
    ensures var block := Serialise(f)[..n];
            Parse(Pad(block), imei)
            == (if n < 9 then Err(UnsupportedCodec)
                else if n == 9 then Ok([])
                else if n < |Serialise(f)| - 4 && f.records != [] then Err(InvalidNumberOfData)
                else Ok(DecodeRecords(f.records, imei)))
            && (CrashingBlock(block) <==> n == 9 || (n > 9 && f.records == []))
  {
    hide Serialise, Parse, CrashingBlock, FitsRecord, FitsStages;
    var block := Serialise(f)[..n];
    PadCuts(Serialise(f), n);
    TruncatedPacket(f, n, Pad(block), imei);
    CrashingParse(block, imei);
  }

  lemma PadCuts(s: seq<uint8>, n: nat)
    requires n <= |s| <= BUFFER_SIZE
    ensures Cut(s, Pad(s[..n]), n)
  {
    assert Pad(s[..n])[..n] == s[..n];
  }

  /** Nine bytes that crash the server: preamble, any length, codec. */
  lemma HeaderCrashes(length: uint32)
    ensures CrashingBlock([0, 0, 0, 0] + PutUint32(length) + [CODEC_8_EXTENDED])
  {
    hide PutUint32, Uint32;
    var block := [0, 0, 0, 0] + PutUint32(length) + [CODEC_8_EXTENDED];
    assert Pad(block)[..4] == PutUint32(0) by { ZeroBytes(); }
    assert EmptyPacket(Pad(block));
  }

  /** The run `steps` has opened one connection, in state `k` now, and stored nothing. */
  ghost predicate Alone(steps: seq<Step>, k: Conn) {
    Run(steps) == Some(State(map[0 := k], [], [], None))
  }

  lemma ApplyAlone(k: Conn, a: Action)
    requires Move(k, a).To? && Move(k, a) == Quiet(Move(k, a).conn)
    ensures Apply(State(map[0 := k], [], [], None), Act(0, a)) == Some(State(map[0 := Move(k, a).conn], [], [], None))
  {
    hide Move;
    var s := State(map[0 := k], [], [], None);
    var To(k', rows, raws) := Move(k, a);
    assert s.table + TagRows(0, rows) == [] && s.rawLog + TagRaws(0, raws) == [];
    assert (map[0 := k])[0 := Move(k, a).conn] == map[0 := Move(k, a).conn];
  }

  lemma MoveAlone(steps: seq<Step>, k: Conn, a: Action)
    requires Alone(steps, k) && Move(k, a).To? && Move(k, a) == Quiet(Move(k, a).conn)
    ensures Alone(steps + [Act(0, a)], Move(k, a).conn)
  {
    hide Move, Run, Apply;
    RunNext(steps, Act(0, a));
    ApplyAlone(k, a);
  }

  lemma CrashAlone(steps: seq<Step>, k: Conn)
    requires Alone(steps, k) && Move(k, ParseBlock) == Crash
    ensures Run(steps + [Act(0, ParseBlock)]) == Some(State(map[0 := k], [], [], Some(0)))
  {
    hide Move, Run;
    RunNext(steps, Act(0, ParseBlock));
  }

  lemma ConnectAlone()
    ensures Alone([Connect(0, None)], Opened(Foreign))
  {
    assert [Connect(0, None)][..0] == [];
    assert Run([]) == Some(EMPTY);
    assert (map[])[0 := Opened(Foreign)] == map[0 := Opened(Foreign)];
  }

  /** A peer that has sent an empty IMEI is greeted. */
  lemma GreetingArrives() returns (steps: seq<Step>, k: Conn)
    ensures |steps| == 4 && Alone(steps, k)
    ensures k == Conn(Foreign, [[0, 0]], 1, AwaitRead, true, [], [1], 1, 0, [], [], 0, {}, false)
  {
    hide Alone, Imei.DecodeIMEI, Imei.EncodeIMEIToHex, Opened, PacketMove, OtherMove, Parse, Pad, MakePacket;
    var greeting: seq<uint8> := [0, 0];
    Imei.DecodeIff(greeting);
    assert greeting[..2] == PutUint16(0);
    ConnectAlone();
    OpenedForeign();
    steps, k := [Connect(0, None)], Opened(Foreign);
    var send := ForeignSend(greeting);
    MoveAlone(steps, k, send);
    steps, k := steps + [Act(0, send)], Move(k, send).conn;
    MoveAlone(steps, k, Action.Read);
    steps, k := steps + [Act(0, Action.Read)], Move(k, Action.Read).conn;
    MoveAlone(steps, k, Greet);
    steps, k := steps + [Act(0, Greet)], Move(k, Greet).conn;
  }

  /** And the block that it sends next gets parsed. */
  lemma BlockArrives(block: seq<uint8>) returns (steps: seq<Step>, k: Conn)
    requires |block| <= BUFFER_SIZE
    ensures |steps| == 7 && Alone(steps, k) && k.phase.Parsing? && k.taken == |k.uplink| == 2 && k.uplink[1] == block
  {
    hide Alone, Imei.DecodeIMEI, Imei.EncodeIMEIToHex, PacketMove, OtherMove, Parse, Pad, MakePacket;
    steps, k := GreetingArrives();
    var send := ForeignSend(block);
    MoveAlone(steps, k, send);
    steps, k := steps + [Act(0, send)], Move(k, send).conn;
    MoveAlone(steps, k, Action.Read);
    steps, k := steps + [Act(0, Action.Read)], Move(k, Action.Read).conn;
    MoveAlone(steps, k, Spawn);
    steps, k := steps + [Act(0, Spawn)], Move(k, Spawn).conn;
  }

  lemma OpenedForeign()
    ensures Opened(Foreign) == Conn(Foreign, [], 0, AwaitRead, false, [], [], 0, 0, [], [], 0, {}, false)
  {
  }

  /** A block that some run crashes on is a crashing block, and every crashing block crashes a run of eight steps. */
  lemma ServerCrashes(block: seq<uint8>)
    requires |block| <= BUFFER_SIZE
    ensures CrashingBlock(block) <==> exists steps: seq<Step> :: |steps| == 8 && CrashesOn(steps, 0, block)
  {
    hide CrashingBlock, Run, Move;
    if CrashingBlock(block) {
      var steps, k := BlockArrives(block);
      CrashIff(k, ParseBlock);
      CrashAlone(steps, k);
      assert CrashesOn(steps + [Act(0, ParseBlock)], 0, block);
    }
    forall steps: seq<Step> | |steps| == 8 && CrashesOn(steps, 0, block) ensures CrashingBlock(block) {
      CrashCause(steps, 0, block);
    }
  }

  /** The run ends with connection `c` crashing the server, having read `block` last. */
  ghost predicate CrashesOn(steps: seq<Step>, c: nat, block: seq<uint8>) {
    && Run(steps).Some? && Run(steps).value.crashed == Some(c) && c in Run(steps).value.conns
    && var k := Run(steps).value.conns[c];
       0 < k.taken <= |k.uplink| && k.uplink[k.taken - 1] == block
  }

  lemma CrashCause(steps: seq<Step>, c: nat, block: seq<uint8>)
    requires CrashesOn(steps, c, block)
    ensures CrashingBlock(block)
  {
    hide Move, CrashingBlock;
    var n := |steps| - 1;
    assert steps != [];
    var s := Run(steps[..n]).value;
    if steps[n].Act? && c in s.conns {
      CrashIff(s.conns[c], steps[n].action);
    }
  }
}
