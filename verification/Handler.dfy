/**
 The connection handler as the sequential loop it is: it reads blocks until a read fails, and greets, parses,
 stores and acknowledges. The loop is proved to perform moves of the state machine of `Session`, and nothing
 else, so what holds of every interleaving holds of it.
 */
module Handler {
  import opened Bytes
  import opened Wire
  import opened Parser
  import opened Rows
  import opened Session
  import Imei

  /** The moves `trace` one after the other, with the rows and raw rows they stored. */
  function Perform(k: Conn, trace: seq<Action>): Outcome {
    if trace == [] then To(k, [], [])
    else
      var n := |trace| - 1;
      match Perform(k, trace[..n])
      case Disabled => Disabled
      case Crash => Crash
      case To(k', rows, raws) =>
        match Move(k', trace[n])
        case Disabled => Disabled
        case Crash => Crash
        case To(k'', more, later) => To(k'', rows + more, raws + later)
  }

  lemma PerformNext(k: Conn, trace: seq<Action>, a: Action)
    requires Perform(k, trace).To?
    ensures Perform(k, trace + [a])
         == match Move(Perform(k, trace).conn, a)
            case Disabled => Disabled
            case Crash => Crash
            case To(k', rows, raws) => To(k', Perform(k, trace).rows + rows, Perform(k, trace).raws + raws)
  {
    hide Move;
    assert (trace + [a])[..|trace + [a]| - 1] == trace;
  }

  lemma {:induction false} PerformKeeps(k: Conn, trace: seq<Action>)
    requires ConnInv(k, [], []) && Perform(k, trace).To?
    ensures ConnInv(Perform(k, trace).conn, Perform(k, trace).rows, Perform(k, trace).raws)
  {
    hide ConnInv, Move;
    if trace == [] {
    } else {
      var n := |trace| - 1;
      PerformKeeps(k, trace[..n]);
      var o := Perform(k, trace[..n]);
      MoveKeeps(o.conn, trace[n], o.rows, o.raws);
    }
  }

  /** A connection whose peer has written all of `blocks` and then closes. */
  function Facing(blocks: seq<seq<uint8>>): Conn {
    Opened(Foreign).(uplink := blocks)
  }

  /** The server's wait group, by its counter. */
  class WaitGroup {
    var count: int

    constructor (count: int)
      ensures this.count == count
    {
      this.count := count;
    }

    method Done()
      modifies this
      ensures count == old(count) - 1
    {
      count := count - 1;
    }
  }

  /**
   The server's end of a connection: what is still to be read and how many reads succeed before the connection
   breaks, what was written, the raw saves started, and whether it is closed. `registered` tells whether the wait
   group counts it, `closedRegistered` whether it did when the connection was closed.
   */
  class Endpoint {
    var incoming: seq<seq<uint8>>
    var readable: nat
    var output: seq<uint8>
    var rawTasks: seq<seq<uint8>>
    var registered: bool
    var closed: bool
    var closedRegistered: bool

    constructor (blocks: seq<seq<uint8>>, readable: nat)
      ensures incoming == blocks && this.readable == readable && output == [] && rawTasks == []
      ensures registered && !closed && !closedRegistered
    {
      incoming, this.readable := blocks, readable;
      output, rawTasks := [], [];
      registered, closed, closedRegistered := true, false, false;
    }

    /** A read of the next block into a fresh buffer; it fails when the peer has closed or the connection broke. */
    method Read() returns (failed: bool, buf: seq<uint8>, size: nat)
      modifies this`incoming, this`readable
      ensures failed <==> old(incoming) == [] || old(readable) == 0
      ensures !failed ==> buf == Pad(old(incoming)[0]) && size == |old(incoming)[0]|
                          && incoming == old(incoming)[1..] && readable == old(readable) - 1
      ensures failed ==> incoming == old(incoming) && readable == old(readable)
    {
      failed := incoming == [] || readable == 0;
      buf, size := [], 0;
      if !failed {
        buf, size := Pad(incoming[0]), |incoming[0]|;
        incoming, readable := incoming[1..], readable - 1;
      }
    }

    method Deregister(wg: WaitGroup)
      modifies this`registered, wg
      ensures !registered && wg.count == old(wg.count) - 1
    {
      wg.Done();
      registered := false;
    }

    method Close()
      modifies this`closed, this`closedRegistered
      ensures closed && closedRegistered == registered
    {
      closed, closedRegistered := true, registered;
    }
  }

  /** The buffers of the first `n` data blocks. */
  function Buffers(blocks: seq<seq<uint8>>, n: nat): (bs: seq<seq<uint8>>)
    requires n == 0 || n < |blocks|
    ensures |bs| == n && forall i | 0 <= i < n :: bs[i] == Pad(blocks[i + 1])
  {
    seq(n, i requires 0 <= i < n => Pad(blocks[i + 1]))
  }

  lemma BuffersNext(blocks: seq<seq<uint8>>, n: nat)
    requires n + 1 < |blocks|
    ensures Buffers(blocks, n + 1) == Buffers(blocks, n) + [Pad(blocks[n + 1])]
  {
    hide Pad;
  }

  /** The machine state that the loop has reached. */
  ghost predicate Reached(blocks: seq<seq<uint8>>, trace: seq<Action>, k: Conn, rows: seq<Row>) {
    Perform(Facing(blocks), trace) == To(k, rows, [])
  }

  lemma Follow(blocks: seq<seq<uint8>>, trace: seq<Action>, k: Conn, rows: seq<Row>, a: Action)
    requires Reached(blocks, trace, k, rows) && Move(k, a).To? && Move(k, a).raws == []
    ensures Reached(blocks, trace + [a], Move(k, a).conn, rows + Move(k, a).rows)
  {
    hide Move;
    PerformNext(Facing(blocks), trace, a);
  }

  /** The handler between two reads: its variables and effects are those of the machine state `k`. */
  ghost predicate AtRead(blocks: seq<seq<uint8>>, k: Conn, authenticated: bool, imei: seq<uint8>) {
    && k.uplink == blocks && k.phase.AwaitRead? && k.taken <= |blocks|
    && k.authenticated == authenticated && k.imei == imei
    && (if authenticated then k.taken == k.spawned + 1 else k.taken == 0 && k.spawned == 0)
  }

  lemma GreetingTurn(blocks: seq<seq<uint8>>, trace: seq<Action>, k: Conn, rows: seq<Row>)
    returns (trace': seq<Action>, k': Conn)
    requires Reached(blocks, trace, k, rows) && AtRead(blocks, k, false, k.imei) && blocks != []
    ensures Reached(blocks, trace', k', rows)
    ensures match Imei.DecodeIMEI(blocks[0])
            case Err(_) => k' == k.(taken := 1, phase := Leaving, imei := [])
            case Ok(imei) => k' == k.(taken := 1, imei := imei, authenticated := true, output := k.output + [1],
                                      replies := k.replies + 1)
  {
    hide Reached, Imei.DecodeIMEI;
    assert rows + [] == rows;
    Follow(blocks, trace, k, rows, Action.Read);
    var k1 := Move(k, Action.Read).conn;
    Follow(blocks, trace + [Action.Read], k1, rows, Greet);
    trace', k' := trace + [Action.Read] + [Greet], Move(k1, Greet).conn;
  }

  /** A data block is read and its goroutine started. */
  lemma SpawnTurn(blocks: seq<seq<uint8>>, trace: seq<Action>, k: Conn, rows: seq<Row>)
    returns (trace': seq<Action>, k': Conn)
    requires Reached(blocks, trace, k, rows) && AtRead(blocks, k, true, k.imei) && k.taken < |blocks|
    ensures Reached(blocks, trace', k', rows)
    ensures k' == k.(taken := k.taken + 1, phase := Parsing, spawned := k.spawned + 1)
  {
    hide Reached;
    assert rows + [] == rows;
    Follow(blocks, trace, k, rows, Action.Read);
    var k1 := Move(k, Action.Read).conn;
    Follow(blocks, trace + [Action.Read], k1, rows, Spawn);
    trace', k' := trace + [Action.Read] + [Spawn], Move(k1, Spawn).conn;
  }

  /** What parsing the block just read gives. */
  predicate Parses(k: Conn, r: Result<seq<Point>>) {
    0 < k.taken <= |k.uplink| && Parse(Pad(k.uplink[k.taken - 1]), k.imei) == r
  }

  lemma RefusedTurn(blocks: seq<seq<uint8>>, trace: seq<Action>, k: Conn, rows: seq<Row>, e: Failure)
    returns (trace': seq<Action>, k': Conn)
    requires Reached(blocks, trace, k, rows) && k.phase.Parsing? && e != Panic && Parses(k, Err(e))
    ensures Reached(blocks, trace', k', rows) && k' == k.(phase := Leaving)
  {
    hide Reached, Parse, Pad;
    assert rows + [] == rows;
    Follow(blocks, trace, k, rows, ParseBlock);
    trace', k' := trace + [ParseBlock], Move(k, ParseBlock).conn;
  }

  lemma CrashTurn(blocks: seq<seq<uint8>>, trace: seq<Action>, k: Conn, rows: seq<Row>)
    requires Reached(blocks, trace, k, rows) && k.phase.Parsing? && (Parses(k, Err(Panic)) || Parses(k, Ok([])))
    ensures Perform(Facing(blocks), trace + [ParseBlock]) == Crash
  {
    hide Parse, Pad, Perform, Facing;
    assert Move(k, ParseBlock) == Crash;
    PerformNext(Facing(blocks), trace, ParseBlock);
  }

  function AfterPacket(k: Conn, ps: seq<Point>, ok: bool): Conn {
    k.(phase := AwaitRead, batches := k.batches + [ps], verdicts := k.verdicts + [ok],
       output := k.output + [0, 0, 0, |ps| % 0x100], replies := k.replies + 1)
  }

  /** A packet is parsed, offered to the table and acknowledged. */
  lemma PacketTurn(blocks: seq<seq<uint8>>, trace: seq<Action>, k: Conn, rows: seq<Row>, ps: seq<Point>, ok: bool)
    returns (trace': seq<Action>, k': Conn)
    requires Reached(blocks, trace, k, rows) && k.phase.Parsing? && ps != [] && Parses(k, Ok(ps))
    ensures Reached(blocks, trace', k', rows + if ok then RowsOf(ps) else [])
    ensures k' == AfterPacket(k, ps, ok)
  {
    hide Reached, Parse, Pad, RowsOf;
    var more := if ok then RowsOf(ps) else [];
    assert rows + [] == rows && (rows + more) + [] == rows + more;
    Follow(blocks, trace, k, rows, ParseBlock);
    var k1 := Move(k, ParseBlock).conn;
    Follow(blocks, trace + [ParseBlock], k1, rows, Save(ok));
    var k2 := Move(k1, Save(ok)).conn;
    Follow(blocks, trace + [ParseBlock] + [Save(ok)], k2, rows + more, Ack);
    trace', k' := trace + [ParseBlock] + [Save(ok)] + [Ack], Move(k2, Ack).conn;
  }

  lemma ReadFailsTurn(blocks: seq<seq<uint8>>, trace: seq<Action>, k: Conn, rows: seq<Row>)
    returns (trace': seq<Action>, k': Conn)
    requires Reached(blocks, trace, k, rows) && k.phase.AwaitRead?
    ensures Reached(blocks, trace', k', rows) && k' == k.(phase := Leaving, readFailed := true)
  {
    hide Reached;
    assert rows + [] == rows;
    Follow(blocks, trace, k, rows, ReadFails);
    trace', k' := trace + [ReadFails], Move(k, ReadFails).conn;
  }

  /** The moves of the deferred calls: `wg.Done`, then `Close`. */
  lemma LeaveTurn(blocks: seq<seq<uint8>>, trace: seq<Action>, k: Conn, rows: seq<Row>)
    requires Reached(blocks, trace, k, rows) && k.phase.Leaving?
    ensures Reached(blocks, trace + [CallDone], k.(phase := Deregistered), rows)
    ensures Reached(blocks, trace + [CallDone] + [CloseConn], k.(phase := Closed), rows)
  {
    hide Reached;
    assert rows + [] == rows;
    Follow(blocks, trace, k, rows, CallDone);
    Follow(blocks, trace + [CallDone], k.(phase := Deregistered), rows, CloseConn);
  }

  lemma FacingInv(blocks: seq<seq<uint8>>)
    ensures ConnInv(Facing(blocks), [], [])
  {
  }

  lemma Started(blocks: seq<seq<uint8>>)
    ensures Reached(blocks, [], Facing(blocks), []) && AtRead(blocks, Facing(blocks), false, [])
    ensures var k := Facing(blocks); k.output == [] && k.verdicts == [] && !k.readFailed && Buffers(blocks, 0) == []
  {
  }

  lemma PadFront(block: seq<uint8>)
    ensures |block| <= |Pad(block)| && Pad(block)[..|block|] == block
  {
  }

  /** The endpoint is in the machine state `k`, whose saves went as `saved` decides, `limit` reads being possible. */
  ghost predicate Shows(blocks: seq<seq<uint8>>, limit: nat, saved: nat -> bool, k: Conn, conn: Endpoint)
    reads conn
  {
    && k.uplink == blocks && k.taken <= |blocks| && conn.incoming == blocks[k.taken..]
    && conn.readable == limit - k.taken
    && conn.output == k.output
    && (k.spawned == 0 || k.spawned < |blocks|) && conn.rawTasks == Buffers(blocks, k.spawned)
    && (forall i: nat | i < |k.verdicts| :: k.verdicts[i] == saved(i))
  }

  /** A read fails only when the blocks or the possible reads are used up. */
  predicate ReadsUsedUp(k: Conn, limit: nat) {
    k.readFailed ==> k.taken == |k.uplink| || k.taken == limit
  }

  /**
   `saved` decides, save by save, whether the table takes the batch. The loop ends when a read fails or a block is
   refused, which the machine state tells; a crash is at the last move of `trace`.
   */
  method Serve(conn: Endpoint, table: Table, saved: nat -> bool)
    returns (crashed: bool, ghost trace: seq<Action>, ghost k: Conn, ghost rows: seq<Row>)
    requires conn.output == [] && conn.rawTasks == []
    modifies conn`incoming, conn`readable, conn`output, conn`rawTasks, table
    ensures var blocks, limit := old(conn.incoming), old(conn.readable);
            Shows(blocks, limit, saved, k, conn) && table.rows == old(table.rows) + rows
            && (if crashed then
                  trace != [] && Perform(Facing(blocks), trace) == Crash
                  && Reached(blocks, trace[..|trace| - 1], k, rows)
                else Reached(blocks, trace, k, rows) && k.phase.Leaving? && ReadsUsedUp(k, limit))
  {
    hide Reached, Perform, Facing, Parse, Pad, RowsOf, Imei.DecodeIMEI, Buffers;
    ghost var blocks, before := conn.incoming, table.rows;
    var authenticated := false;
    var imei: seq<uint8> := [];
    var saves := 0;
    trace, k, rows := [], Facing(blocks), [];
    Started(blocks);
    while true
      invariant Reached(blocks, trace, k, rows) && AtRead(blocks, k, authenticated, imei)
      invariant Shows(blocks, old(conn.readable), saved, k, conn) && !k.readFailed && saves == |k.verdicts|
      invariant table.rows == before + rows
      decreases |conn.incoming|
    {
      var failed, buf, size := conn.Read();
      if failed {
        trace, k := ReadFailsTurn(blocks, trace, k, rows);
        return false, trace, k, rows;
      }
      PadFront(blocks[k.taken]);
      if !authenticated {
        trace, k := GreetingTurn(blocks, trace, k, rows);
        var decoded := Imei.DecodeIMEI(buf[..size]);
        if decoded.Err? {
          return false, trace, k, rows;
        }
        imei := decoded.imei;
        conn.output := conn.output + [1];
        authenticated := true;
        continue;
      }
      BuffersNext(blocks, k.spawned);
      conn.rawTasks := conn.rawTasks + [buf];
      trace, k := SpawnTurn(blocks, trace, k, rows);
      var parsed := ParsePacket(buf, imei);
      if parsed.Err? && parsed.error != Panic {
        trace, k := RefusedTurn(blocks, trace, k, rows, parsed.error);
        return false, trace, k, rows;
      }
      if parsed.Err? || parsed.value == [] {
        CrashTurn(blocks, trace, k, rows);
        assert (trace + [ParseBlock])[..|trace|] == trace;
        return true, trace + [ParseBlock], k, rows;
      }
      var ok := table.SaveAvlPoints(parsed.value, true, |parsed.value|, saved(saves));
      saves := saves + 1;
      conn.output := conn.output + [0, 0, 0, |parsed.value| % 0x100];
      trace, k := PacketTurn(blocks, trace, k, rows, parsed.value, ok);
      rows := rows + if ok then RowsOf(parsed.value) else [];
    }
  }

  /** The loop, and then the two deferred calls, which Go makes on a panic as well. */
  method HandleConnection(conn: Endpoint, wg: WaitGroup, table: Table, saved: nat -> bool)
    returns (crashed: bool, ghost trace: seq<Action>)
    requires conn.output == [] && conn.rawTasks == [] && conn.registered && !conn.closed
    modifies conn, wg, table
    ensures conn.closed && !conn.closedRegistered && !conn.registered && wg.count == old(wg.count) - 1
    ensures crashed ==> trace != [] && Perform(Facing(old(conn.incoming)), trace) == Crash
    ensures var blocks, limit := old(conn.incoming), old(conn.readable);
            var o := Perform(Facing(blocks), if crashed then trace[..|trace| - 1] else trace);
            o.To? && Shows(blocks, limit, saved, o.conn, conn) && table.rows == old(table.rows) + o.rows
            && ConnInv(o.conn, o.rows, o.raws)
            && (!crashed ==> o.conn.phase.Closed? && ReadsUsedUp(o.conn, limit))
  {
    hide Perform, Facing, ConnInv, Buffers;
    ghost var blocks := conn.incoming;
    ghost var k, rows;
    crashed, trace, k, rows := Serve(conn, table, saved);
    conn.Deregister(wg);
    conn.Close();
    if crashed {
      Finished(blocks, trace[..|trace| - 1], k, rows);
    } else {
      LeaveTurn(blocks, trace, k, rows);
      trace, k := trace + [CallDone] + [CloseConn], k.(phase := Closed);
      Finished(blocks, trace, k, rows);
    }
  }

  lemma Finished(blocks: seq<seq<uint8>>, trace: seq<Action>, k: Conn, rows: seq<Row>)
    requires Reached(blocks, trace, k, rows)
    ensures Perform(Facing(blocks), trace) == To(k, rows, []) && ConnInv(k, rows, [])
  {
    hide ConnInv, Perform, Facing;
    FacingInv(blocks);
    PerformKeeps(Facing(blocks), trace);
  }
}
