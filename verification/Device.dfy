/**
 The device simulator's calls as the sequential code they are. Each is proved to make the client moves of the
 state machine of `Session`, and to return an error exactly when the machine's client fails or has nothing
 to read.
 */
module Device {
  import opened Wrappers
  import opened Bytes
  import opened Encoder
  import opened Session
  import Imei

  datatype CallResult = Accepted | ImeiRefused | ReadFailed | NotAccepted

  /** The device's end of the connection: the blocks written, and the bytes that will arrive from the server. */
  class Socket {
    var sent: seq<seq<uint8>>
    var inbound: seq<uint8>

    constructor (inbound: seq<uint8>)
      ensures sent == [] && this.inbound == inbound
    {
      sent := [];
      this.inbound := inbound;
    }

    method Write(block: seq<uint8>)
      modifies this`sent
      ensures sent == old(sent) + [block]
    {
      sent := sent + [block];
    }

    /** A read of `n` bytes into a buffer, in one piece. */
    method Read(n: nat) returns (ok: bool, buf: seq<uint8>)
      modifies this`inbound
      ensures ok <==> n <= |old(inbound)|
      ensures if ok then buf == old(inbound)[..n] && inbound == old(inbound)[n..] else inbound == old(inbound)
    {
      ok := n <= |inbound|;
      buf := [];
      if ok {
        buf := inbound[..n];
        inbound := inbound[n..];
      }
    }
  }

  /** The machine's connection `k`, with everything the server will write already written. */
  ghost predicate Matches(sent: seq<seq<uint8>>, inbound: seq<uint8>, k: Conn) {
    k.client.Simulator? && k.uplink == sent && k.consumed <= |k.output| && k.output[k.consumed..] == inbound
  }

  /** The machine's client after sending with `a` and, when enough bytes arrive, reading with `b`. */
  function Call(k: Conn, a: Action, b: Action): Outcome {
    match ClientMove(k, a)
    case To(k1, _, _) => (match ClientMove(k1, b) case Disabled => ClientMove(k, a) case o => o)
    case o => o
  }

  method AuthenticateIMEI(socket: Socket, imei: seq<uint8>, ghost k: Conn) returns (r: CallResult)
    requires Matches(socket.sent, socket.inbound, k) && k.client.stage == Starting && k.client.imei == imei
    modifies socket
    ensures var o := Call(k, Authenticate, AuthReply);
            o.To? && Matches(socket.sent, socket.inbound, o.conn)
            && (r == Accepted <==> o.conn.client.stage == Ready)
            && (r == ReadFailed <==> o.conn.client.stage == AwaitingAuth)
            && (r == ImeiRefused <==> |imei| != 15)
    ensures socket.sent == old(socket.sent) + if |imei| != 15 then [] else [[0, 15] + imei]
    ensures var reply := old(socket.inbound);
            if |imei| != 15 then r == ImeiRefused && socket.inbound == reply
            else if reply == [] then r == ReadFailed && socket.inbound == reply
            else r == (if reply[0] == 1 then Accepted else NotAccepted) && socket.inbound == reply[1..]
  {
    hide Imei.EncodeIMEIToHex;
    Imei.EncodeIff(imei);
    var encoded := Imei.EncodeIMEIToHex(imei);
    if encoded.Err? {
      return ImeiRefused;
    }
    socket.Write(encoded.imei);
    var ok, buf := socket.Read(1);
    if !ok {
      return ReadFailed;
    }
    assert buf[0] == k.output[k.consumed] && socket.inbound == k.output[k.consumed + 1..];
    r := if buf[0] != 1 then NotAccepted else Accepted;
  }

  /** `k` is the machine's connection in this state, for packets that the machine's client sends. */
  method SendPoints(socket: Socket, points: seq<AvlData>, ghost k: Option<Conn>) returns (r: CallResult)
    requires k.Some? ==> Matches(socket.sent, socket.inbound, k.value) && k.value.client.stage == Ready
                         && Sendable(points)
    modifies socket
    ensures socket.sent == old(socket.sent) + [MakePacket(points)]
    ensures var reply := old(socket.inbound);
            if |reply| < 4 then r == ReadFailed && socket.inbound == reply
            else r == (if reply[3] == |points| % 0x100 then Accepted else NotAccepted) && socket.inbound == reply[4..]
    ensures k.Some? ==>
              var o := Call(k.value, Action.SendPoints(points), AckReply);
              o.To? && Matches(socket.sent, socket.inbound, o.conn)
              && (r == Accepted <==> o.conn.client.stage == Ready)
              && (r == ReadFailed <==> o.conn.client.stage == AwaitingAck)
  {
    hide MakePacket;
    var packet := MakeCodec8Packet(points);
    socket.Write(packet);
    var ok, buf := socket.Read(4);
    if !ok {
      return ReadFailed;
    }
    if k.Some? {
      var m := k.value;
      assert buf[3] == m.output[m.consumed + 3] && socket.inbound == m.output[m.consumed + 4..];
      assert (m.client.batches + [points])[|m.client.batches|] == points;
    }
    r := if buf[3] != |points| % 0x100 then NotAccepted else Accepted;
  }

  /** The client moves of one session: authentication, then the batches until a call does not succeed. */
  function Calls(k: Conn, batches: seq<seq<AvlData>>): Outcome {
    if batches == [] then Call(k, Authenticate, AuthReply)
    else
      var n := |batches| - 1;
      match Calls(k, batches[..n])
      case To(k', _, _) =>
        if k'.client.Simulator? && k'.client.stage == Ready
        then Call(k', Action.SendPoints(batches[n]), AckReply) else To(k', [], [])
      case o => o
  }

  lemma CallsNext(k: Conn, batches: seq<seq<AvlData>>, i: nat)
    requires i < |batches| && Calls(k, batches[..i]).To?
    ensures Calls(k, batches[..i + 1])
         == var k' := Calls(k, batches[..i]).conn;
            if k'.client.Simulator? && k'.client.stage == Ready
            then Call(k', Action.SendPoints(batches[i]), AckReply) else To(k', [], [])
  {
    hide Call;
    assert batches[..i + 1][..i] == batches[..i];
  }

  lemma {:induction false} CallsStop(k: Conn, batches: seq<seq<AvlData>>, i: nat)
    requires i <= |batches| && Calls(k, batches[..i]).To?
    requires Calls(k, batches[..i]).conn.client.Simulator? && Calls(k, batches[..i]).conn.client.stage != Ready
    ensures Calls(k, batches).To? && Calls(k, batches).conn == Calls(k, batches[..i]).conn
    decreases |batches| - i
  {
    hide Call, Calls;
    if i < |batches| {
      CallsNext(k, batches, i);
      CallsStop(k, batches, i + 1);
    } else {
      assert batches[..i] == batches;
    }
  }

  function Packets(batches: seq<seq<AvlData>>): (blocks: seq<seq<uint8>>)
    ensures |blocks| == |batches| && forall i | 0 <= i < |batches| :: blocks[i] == MakePacket(batches[i])
  {
    seq(|batches|, i requires 0 <= i < |batches| => MakePacket(batches[i]))
  }

  lemma PacketsNext(batches: seq<seq<AvlData>>, i: nat)
    requires i < |batches|
    ensures Packets(batches[..i + 1]) == Packets(batches[..i]) + [MakePacket(batches[i])]
  {
    hide MakePacket;
  }

  /** After `i` batches the socket and the last result are those of the machine's client. */
  ghost predicate InStep(k: Conn, batches: seq<seq<AvlData>>, i: nat, sent: seq<seq<uint8>>, inbound: seq<uint8>,
                         r: CallResult)
  {
    i <= |batches|
    && var o := Calls(k, batches[..i]);
       o.To? && Matches(sent, inbound, o.conn) && (r == Accepted <==> o.conn.client.stage == Ready)
  }

  lemma NextInStep(k: Conn, batches: seq<seq<AvlData>>, i: nat, sent: seq<seq<uint8>>, inbound: seq<uint8>,
                   o: Outcome, sent': seq<seq<uint8>>, inbound': seq<uint8>, r: CallResult)
    requires InStep(k, batches, i, sent, inbound, Accepted) && i < |batches|
    requires o == Call(Calls(k, batches[..i]).conn, Action.SendPoints(batches[i]), AckReply)
    requires o.To? && Matches(sent', inbound', o.conn) && (r == Accepted <==> o.conn.client.stage == Ready)
    ensures InStep(k, batches, i + 1, sent', inbound', r)
  {
    hide Call, Calls;
    CallsNext(k, batches, i);
  }

  lemma LastInStep(k: Conn, batches: seq<seq<AvlData>>, i: nat, sent: seq<seq<uint8>>, inbound: seq<uint8>,
                   r: CallResult)
    requires InStep(k, batches, i, sent, inbound, r) && (r == Accepted ==> i == |batches|)
    ensures InStep(k, batches, |batches|, sent, inbound, r)
  {
    hide Call, Calls;
    assert batches[..|batches|] == batches;
    if r != Accepted {
      CallsStop(k, batches, i);
    }
  }

  /**
   The endless loop, for the batches it gets to generate: `n` of them are sent, one after the other, until a call
   does not succeed. When the machine's client sends such packets, these are its moves.
   */
  method SendRandomPoints(socket: Socket, imei: seq<uint8>, batches: seq<seq<AvlData>>, ghost k: Conn)
    returns (r: CallResult, ghost n: nat)
    requires Matches(socket.sent, socket.inbound, k) && k.client.stage == Starting && k.client.imei == imei
    modifies socket
    ensures n <= |batches| && (r == Accepted ==> n == |batches|)
    ensures r == ImeiRefused <==> |imei| != 15
    ensures socket.sent == old(socket.sent) + if |imei| != 15 then [] else [[0, 15] + imei] + Packets(batches[..n])
    ensures (forall b <- batches :: Sendable(b)) ==> InStep(k, batches, |batches|, socket.sent, socket.inbound, r)
  {
    hide Call, Sendable, Calls, Packets, InStep, MakePacket, Matches;
    ghost var all := forall b <- batches :: Sendable(b);
    r := AuthenticateIMEI(socket, imei, k);
    ghost var greeted := socket.sent;
    var i := 0;
    FirstInStep(k, batches, socket.sent, socket.inbound, r);
    assert Packets(batches[..0]) == [];
    while i < |batches| && r == Accepted
      invariant i <= |batches| && (r == ImeiRefused <==> |imei| != 15) && (|imei| != 15 ==> i == 0)
      invariant socket.sent == greeted + Packets(batches[..i])
      invariant all ==> InStep(k, batches, i, socket.sent, socket.inbound, r)
    {
      ghost var m := None;
      ghost var sent, inbound := socket.sent, socket.inbound;
      if all {
        InStepMeans(k, batches, i, sent, inbound, r);
        m := Some(Calls(k, batches[..i]).conn);
      }
      PacketsNext(batches, i);
      r := SendPoints(socket, batches[i], m);
      if all {
        var o := Call(m.value, Action.SendPoints(batches[i]), AckReply);
        NextInStep(k, batches, i, sent, inbound, o, socket.sent, socket.inbound, r);
      }
      i := i + 1;
    }
    n := i;
    if all {
      LastInStep(k, batches, i, socket.sent, socket.inbound, r);
    }
  }

  lemma InStepMeans(k: Conn, batches: seq<seq<AvlData>>, i: nat, sent: seq<seq<uint8>>, inbound: seq<uint8>,
                    r: CallResult)
    requires InStep(k, batches, i, sent, inbound, r)
    ensures var o := Calls(k, batches[..i]);
            o.To? && Matches(sent, inbound, o.conn) && (r == Accepted <==> o.conn.client.stage == Ready)
  {
    hide Calls;
  }

  lemma FirstInStep(k: Conn, batches: seq<seq<AvlData>>, sent: seq<seq<uint8>>, inbound: seq<uint8>, r: CallResult)
    requires var o := Call(k, Authenticate, AuthReply);
             o.To? && Matches(sent, inbound, o.conn) && (r == Accepted <==> o.conn.client.stage == Ready)
    ensures InStep(k, batches, 0, sent, inbound, r)
  {
    hide Call, Calls;
    NoBatches(k);
    assert batches[..0] == [];
  }

  lemma NoBatches(k: Conn)
    ensures Calls(k, []) == Call(k, Authenticate, AuthReply)
  {
  }
}
