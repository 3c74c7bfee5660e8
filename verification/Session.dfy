/**
 The session protocol: a state machine over any number of connections, whose steps interleave freely. Each
 connection has a client, either the device simulator or a peer that sends what it likes; the server's
 connection handler, one step per action of its loop; and the goroutines that save raw data, which run
 whenever they are scheduled. All handlers share the table and the raw log.

 A step sequence is a run. Everything below holds in the state after every run.
 */
module Session {
  import opened Wrappers
  import opened Bytes
  import opened Wire
  import opened Elements
  import opened Parser
  import opened Encoder
  import opened Rows
  import Imei

  const BUFFER_SIZE := 2048

  /** The read buffer after a block has been read into it. */
  function Pad(block: seq<uint8>): seq<uint8> {
    block + Zeros(if |block| < BUFFER_SIZE then BUFFER_SIZE - |block| else 0)
  }

  // ---------------------------------------------------------------- one connection

  /** Where the handler is: the action it performs next. `Leaving` is the return, with `wg.Done` before `Close`. */
  datatype Phase =
    | AwaitRead
    | Greeting
    | Arrived
    | Parsing
    | Saving(points: seq<Point>)
    | Acking(count: nat)
    | Leaving
    | Deregistered
    | Closed

  /** Where the simulator is. `Failed` is an error return of one of its calls. */
  datatype Stage = Starting | AwaitingAuth | Ready | AwaitingAck | Failed

  /** `received` counts the calls of a simulator that succeeded, `batches` are the packets it sent. */
  datatype Client =
    | Foreign
    | Simulator(imei: seq<uint8>, batches: seq<seq<AvlData>>, received: nat, stage: Stage)

  /**
   `uplink` are the blocks the client wrote, of which the handler has read `taken`; `output` are the bytes the
   handler wrote in `replies` writes, of which the client has read `consumed`. `batches` are the parsed packets
   offered to the table and `verdicts` what became of them. Raw-data goroutine `i` belongs to data block `i`,
   so to block `i + 1`; `spawned` of them were started, and those in `rawDone` have run.
   */
  datatype Conn = Conn(
    client: Client, uplink: seq<seq<uint8>>, taken: nat, phase: Phase, authenticated: bool, imei: seq<uint8>,
    output: seq<uint8>, replies: nat, consumed: nat, batches: seq<seq<Point>>, verdicts: seq<bool>,
    spawned: nat, rawDone: set<nat>, readFailed: bool)

  datatype RawRow = RawRow(index: nat, imei: seq<uint8>, payload: string)

  datatype Action =
    | ForeignSend(block: seq<uint8>)
    | Authenticate
    | AuthReply
    | SendPoints(points: seq<AvlData>)
    | AckReply
    | Read
    | ReadFails
    | Greet
    | Spawn
    | ParseBlock
    | Save(ok: bool)
    | Ack
    | RunRaw(index: nat, stored: bool)
    | CallDone
    | CloseConn

  /** `Crash` is a panic in a handler, which ends the whole server process. */
  datatype Outcome = Disabled | Crash | To(conn: Conn, rows: seq<Row>, raws: seq<RawRow>)

  function Opened(client: Client): Conn {
    Conn(client, [], 0, AwaitRead, false, [], [], 0, 0, [], [], 0, {}, false)
  }

  function Quiet(k: Conn): Outcome {
    To(k, [], [])
  }

  /** The simulator's side: `AuthenticateIMEI` and `SendPoints`, each split at its read. */
  function ClientMove(k: Conn, a: Action): Outcome {
    match a
    case ForeignSend(block) =>
      if k.client.Foreign? && |block| <= BUFFER_SIZE then Quiet(k.(uplink := k.uplink + [block])) else Disabled
    case Authenticate =>
      if k.client.Foreign? || k.client.stage != Starting then Disabled
      else (
        match Imei.EncodeIMEIToHex(k.client.imei)
        case Err(_) => Quiet(k.(client := k.client.(stage := Failed)))
        case Ok(bytes) => Quiet(k.(client := k.client.(stage := AwaitingAuth), uplink := k.uplink + [bytes]))
      )
    case AuthReply =>
      if k.client.Foreign? || k.client.stage != AwaitingAuth || |k.output| < k.consumed + 1 then Disabled
      else if k.output[k.consumed] != 1
      then Quiet(k.(client := k.client.(stage := Failed), consumed := k.consumed + 1))
      else Quiet(k.(client := k.client.(stage := Ready, received := k.client.received + 1),
                    consumed := k.consumed + 1))
    case SendPoints(points) =>
      if k.client.Foreign? || k.client.stage != Ready || points == [] || |MakePacket(points)| > BUFFER_SIZE
      then Disabled
      else Quiet(k.(client := k.client.(stage := AwaitingAck, batches := k.client.batches + [points]),
                    uplink := k.uplink + [MakePacket(points)]))
    case AckReply =>
      if k.client.Foreign? || k.client.stage != AwaitingAck || k.client.batches == []
         || |k.output| < k.consumed + 4
      then Disabled
      else if k.output[k.consumed + 3] != |k.client.batches[|k.client.batches| - 1]| % 0x100
      then Quiet(k.(client := k.client.(stage := Failed), consumed := k.consumed + 4))
      else Quiet(k.(client := k.client.(stage := Ready, received := k.client.received + 1),
                    consumed := k.consumed + 4))
    case _ => Disabled
  }

  /** The handler's loop before a packet is parsed. */
  function ReceiveMove(k: Conn, a: Action): Outcome {
    match a
    case Read =>
      if !k.phase.AwaitRead? || k.taken >= |k.uplink| then Disabled
      else Quiet(k.(taken := k.taken + 1, phase := if k.authenticated then Arrived else Greeting))
    case ReadFails =>
      if !k.phase.AwaitRead? then Disabled else Quiet(k.(phase := Leaving, readFailed := true))
    case Greet =>
      if !k.phase.Greeting? || !(0 < k.taken <= |k.uplink|) then Disabled
      else (
        match Imei.DecodeIMEI(k.uplink[k.taken - 1])
        case Err(_) => Quiet(k.(phase := Leaving, imei := []))
        case Ok(imei) =>
          Quiet(k.(phase := AwaitRead, imei := imei, authenticated := true, output := k.output + [1],
                   replies := k.replies + 1))
      )
    case Spawn =>
      if !k.phase.Arrived? then Disabled else Quiet(k.(phase := Parsing, spawned := k.spawned + 1))
    case _ => Disabled
  }

  /** A packet without records has no last point to publish: indexing it panics. */
  function PacketMove(k: Conn, a: Action): Outcome {
    match a
    case ParseBlock =>
      if !k.phase.Parsing? || !(0 < k.taken <= |k.uplink|) then Disabled
      else (
        match Parse(Pad(k.uplink[k.taken - 1]), k.imei)
        case Err(e) => if e == Panic then Crash else Quiet(k.(phase := Leaving))
        case Ok(points) => if points == [] then Crash else Quiet(k.(phase := Saving(points)))
      )
    case Save(ok) =>
      if !k.phase.Saving? then Disabled
      else To(k.(phase := Acking(|k.phase.points|), batches := k.batches + [k.phase.points],
                 verdicts := k.verdicts + [ok]),
              if ok then RowsOf(k.phase.points) else [], [])
    case Ack =>
      if !k.phase.Acking? then Disabled
      else Quiet(k.(phase := AwaitRead, output := k.output + [0, 0, 0, k.phase.count % 0x100],
                    replies := k.replies + 1))
    case _ => Disabled
  }

  /** A goroutine reads the handler's `imei` variable and its own buffer when it runs. */
  function OtherMove(k: Conn, a: Action): Outcome {
    match a
    case RunRaw(i, stored) =>
      if i >= k.spawned || i in k.rawDone || i + 1 >= |k.uplink| then Disabled
      else To(k.(rawDone := k.rawDone + {i}), [],
              if stored then [RawRow(i, k.imei, Imei.HexEncode(Pad(k.uplink[i + 1])))] else [])
    case CallDone => if !k.phase.Leaving? then Disabled else Quiet(k.(phase := Deregistered))
    case CloseConn => if !k.phase.Deregistered? then Disabled else Quiet(k.(phase := Closed))
    case _ => Disabled
  }

  function Move(k: Conn, a: Action): Outcome {
    match a
    case ForeignSend(_) => ClientMove(k, a)
    case Authenticate => ClientMove(k, a)
    case AuthReply => ClientMove(k, a)
    case SendPoints(_) => ClientMove(k, a)
    case AckReply => ClientMove(k, a)
    case Read => ReceiveMove(k, a)
    case ReadFails => ReceiveMove(k, a)
    case Greet => ReceiveMove(k, a)
    case Spawn => ReceiveMove(k, a)
    case ParseBlock => PacketMove(k, a)
    case Save(_) => PacketMove(k, a)
    case Ack => PacketMove(k, a)
    case RunRaw(_, _) => OtherMove(k, a)
    case CallDone => OtherMove(k, a)
    case CloseConn => OtherMove(k, a)
  }

  // ---------------------------------------------------------------- all connections

  datatype Stored = Stored(conn: nat, row: Row)

  datatype RawStored = RawStored(conn: nat, raw: RawRow)

  datatype State = State(conns: map<nat, Conn>, table: seq<Stored>, rawLog: seq<RawStored>, crashed: Option<nat>)

  datatype Step = Connect(id: nat, imei: Option<seq<uint8>>) | Act(id: nat, action: Action)

  function TagRows(c: nat, rows: seq<Row>): seq<Stored> {
    seq(|rows|, i requires 0 <= i < |rows| => Stored(c, rows[i]))
  }

  function TagRaws(c: nat, raws: seq<RawRow>): seq<RawStored> {
    seq(|raws|, i requires 0 <= i < |raws| => RawStored(c, raws[i]))
  }

  const EMPTY := State(map[], [], [], None)

  function ClientFor(imei: Option<seq<uint8>>): Client {
    match imei
    case None => Foreign
    case Some(i) => Simulator(i, [], 0, Starting)
  }

  function Apply(s: State, step: Step): Option<State> {
    if s.crashed.Some? then None
    else
      match step
      case Connect(c, imei) =>
        if c in s.conns then None else Some(s.(conns := s.conns[c := Opened(ClientFor(imei))]))
      case Act(c, a) =>
        if c !in s.conns then None
        else
          match Move(s.conns[c], a)
          case Disabled => None
          case Crash => Some(s.(crashed := Some(c)))
          case To(k, rows, raws) =>
            Some(State(s.conns[c := k], s.table + TagRows(c, rows), s.rawLog + TagRaws(c, raws), s.crashed))
  }

  /** The state after a run, if every step of it was possible. */
  function Run(steps: seq<Step>): Option<State> {
    if steps == [] then Some(EMPTY)
    else
      match Run(steps[..|steps| - 1])
      case None => None
      case Some(s) => Apply(s, steps[|steps| - 1])
  }

  lemma RunNext(steps: seq<Step>, step: Step)
    ensures Run(steps + [step])
         == match Run(steps)
            case None => None
            case Some(s) => Apply(s, step)
  {
    hide Apply;
    assert (steps + [step])[..|steps|] == steps;
  }

  /** What is stored for one connection, in the order of the table. */
  function RowsFor(table: seq<Stored>, c: nat): seq<Row> {
    if table == [] then []
    else
      var last := table[|table| - 1];
      RowsFor(table[..|table| - 1], c) + if last.conn == c then [last.row] else []
  }

  function RawsFor(rawLog: seq<RawStored>, c: nat): seq<RawRow> {
    if rawLog == [] then []
    else
      var last := rawLog[|rawLog| - 1];
      RawsFor(rawLog[..|rawLog| - 1], c) + if last.conn == c then [last.raw] else []
  }

  // ---------------------------------------------------------------- what the handler keeps

  /** The bytes written for a greeting and these packets. */
  function ReplyBytes(batches: seq<seq<Point>>): seq<uint8> {
    if batches == [] then [1]
    else ReplyBytes(batches[..|batches| - 1]) + [0, 0, 0, |batches[|batches| - 1]| % 0x100]
  }

  /** The rows of the packets that were stored, in order. */
  function Kept(batches: seq<seq<Point>>, verdicts: seq<bool>): seq<Row>
    requires |batches| == |verdicts|
  {
    if batches == [] then []
    else
      var n := |batches| - 1;
      Kept(batches[..n], verdicts[..n]) + if verdicts[n] then RowsOf(batches[n]) else []
  }

  /** Counters and phase. */
  predicate Counts(k: Conn) {
    && k.replies <= k.taken <= k.replies + 1
    && k.taken <= |k.uplink|
    && (k.authenticated <==> k.replies > 0)
    && (k.phase.AwaitRead? ==> k.taken == k.replies)
    && (k.phase.Greeting? ==> k.replies == 0 && k.taken == 1)
    && (k.phase.Arrived? || k.phase.Parsing? || k.phase.Saving? || k.phase.Acking? ==>
          k.replies > 0 && k.taken == k.replies + 1)
    && (k.replies == 0 ==> k.spawned == 0)
    && (k.replies > 0 ==> k.replies <= k.spawned + 1 <= k.taken)
    && (k.phase.Arrived? ==> k.spawned + 1 == k.replies)
    && (k.phase.Parsing? || k.phase.Saving? || k.phase.Acking? ==> k.spawned == k.replies)
    && (forall i <- k.rawDone :: i < k.spawned)
  }

  /** The variable `imei` is what the first block says, and the batches are what the data blocks say. */
  predicate Contents(k: Conn)
    requires Counts(k)
  {
    && (k.authenticated ==> Imei.DecodeIMEI(k.uplink[0]) == Imei.Ok(k.imei))
    && |k.verdicts| == |k.batches|
    && |k.batches| + 1 == (if k.replies == 0 then 1 else k.replies) + (if k.phase.Acking? then 1 else 0)
    && (forall i | 0 <= i < |k.batches| ::
          k.batches[i] != [] && Parse(Pad(k.uplink[i + 1]), k.imei) == Ok(k.batches[i]))
    && (k.phase.Saving? ==>
          k.phase.points != [] && Parse(Pad(k.uplink[k.taken - 1]), k.imei) == Ok(k.phase.points))
    && (k.phase.Acking? ==> k.phase.count == |k.batches[|k.batches| - 1]|)
  }

  predicate Written(k: Conn)
    requires Counts(k) && Contents(k)
  {
    k.output == if k.replies == 0 then [] else ReplyBytes(k.batches[..k.replies - 1])
  }

  /** Raw rows: at most one per goroutine, with the connection's IMEI and the whole buffer of its block. */
  predicate RawsKept(k: Conn, raws: seq<RawRow>)
    requires Counts(k)
  {
    && (forall r <- raws ::
          r.index in k.rawDone && r.imei == k.imei && r.payload == Imei.HexEncode(Pad(k.uplink[r.index + 1])))
    && (forall i, j | 0 <= i < j < |raws| :: raws[i].index != raws[j].index)
  }

  predicate ConnInv(k: Conn, rows: seq<Row>, raws: seq<RawRow>) {
    Counts(k) && Contents(k) && Written(k) && rows == Kept(k.batches, k.verdicts) && RawsKept(k, raws)
  }

  lemma OpenedInv(client: Client)
    ensures ConnInv(Opened(client), [], [])
  {
  }

  /** More blocks in the uplink change nothing the handler has seen. */
  lemma ClientSideFree(k: Conn, k': Conn, rows: seq<Row>, raws: seq<RawRow>)
    requires ConnInv(k, rows, raws) && k.uplink <= k'.uplink
    requires k' == k.(client := k'.client, uplink := k'.uplink, consumed := k'.consumed)
    ensures ConnInv(k', rows, raws)
  {
    hide Parse, Imei.DecodeIMEI, Imei.HexEncode, Pad, ReplyBytes, Kept;
  }

  lemma ClientMoveKeeps(k: Conn, a: Action, rows: seq<Row>, raws: seq<RawRow>)
    requires ConnInv(k, rows, raws) && ClientMove(k, a).To?
    ensures ClientMove(k, a).rows == [] && ClientMove(k, a).raws == []
    ensures ConnInv(ClientMove(k, a).conn, rows, raws)
  {
    hide ConnInv, Imei.EncodeIMEIToHex, MakePacket;
    ClientSideFree(k, ClientMove(k, a).conn, rows, raws);
  }

  lemma HeadMember(raws: seq<RawRow>)
    ensures raws == [] || raws[0] in raws
  {
  }

  lemma GreetKeeps(k: Conn, rows: seq<Row>, raws: seq<RawRow>)
    requires ConnInv(k, rows, raws) && ReceiveMove(k, Greet).To?
    ensures ConnInv(ReceiveMove(k, Greet).conn, rows, raws)
  {
    hide Parse, Imei.DecodeIMEI, Imei.HexEncode, Pad, Kept;
    assert k.batches[..0] == [];
    HeadMember(raws);
  }

  lemma ReceiveMoveKeeps(k: Conn, a: Action, rows: seq<Row>, raws: seq<RawRow>)
    requires ConnInv(k, rows, raws) && ReceiveMove(k, a).To?
    ensures ReceiveMove(k, a).rows == [] && ReceiveMove(k, a).raws == []
    ensures ConnInv(ReceiveMove(k, a).conn, rows, raws)
  {
    hide Parse, Imei.DecodeIMEI, Imei.HexEncode, Pad, Kept, ReplyBytes;
    if a.Greet? {
      GreetKeeps(k, rows, raws);
    }
  }

  lemma ParseKeeps(k: Conn, rows: seq<Row>, raws: seq<RawRow>)
    requires ConnInv(k, rows, raws) && PacketMove(k, ParseBlock).To?
    ensures ConnInv(PacketMove(k, ParseBlock).conn, rows, raws)
  {
    hide Parse, Imei.DecodeIMEI, Imei.HexEncode, Pad, Kept, ReplyBytes;
  }

  lemma KeptNext(batches: seq<seq<Point>>, verdicts: seq<bool>, points: seq<Point>, ok: bool)
    requires |batches| == |verdicts|
    ensures Kept(batches + [points], verdicts + [ok]) == Kept(batches, verdicts) + if ok then RowsOf(points) else []
  {
    hide RowsOf;
    var n := |batches|;
    assert (batches + [points])[..n] == batches && (verdicts + [ok])[..n] == verdicts;
  }

  lemma SaveKeeps(k: Conn, ok: bool, rows: seq<Row>, raws: seq<RawRow>)
    requires ConnInv(k, rows, raws) && PacketMove(k, Save(ok)).To?
    ensures ConnInv(PacketMove(k, Save(ok)).conn, rows + PacketMove(k, Save(ok)).rows, raws)
  {
    hide Parse, Imei.DecodeIMEI, Imei.HexEncode, Pad, RowsOf, ReplyBytes, Kept;
    var k' := PacketMove(k, Save(ok)).conn;
    KeptNext(k.batches, k.verdicts, k.phase.points, ok);
    assert k'.batches[..k.replies - 1] == k.batches[..k.replies - 1];
  }

  lemma ReplyBytesNext(batches: seq<seq<Point>>, n: nat)
    requires n < |batches|
    ensures ReplyBytes(batches[..n + 1]) == ReplyBytes(batches[..n]) + [0, 0, 0, |batches[n]| % 0x100]
  {
    assert batches[..n + 1][..n] == batches[..n];
  }

  lemma AckKeeps(k: Conn, rows: seq<Row>, raws: seq<RawRow>)
    requires ConnInv(k, rows, raws) && PacketMove(k, Ack).To?
    ensures ConnInv(PacketMove(k, Ack).conn, rows, raws)
  {
    hide Parse, Imei.DecodeIMEI, Imei.HexEncode, Pad, Kept, ReplyBytes;
    ReplyBytesNext(k.batches, k.replies - 1);
  }

  lemma PacketMoveKeeps(k: Conn, a: Action, rows: seq<Row>, raws: seq<RawRow>)
    requires ConnInv(k, rows, raws) && PacketMove(k, a).To?
    ensures PacketMove(k, a).raws == []
    ensures ConnInv(PacketMove(k, a).conn, rows + PacketMove(k, a).rows, raws)
  {
    hide ConnInv, Parse, Pad, RowsOf;
    assert rows + [] == rows;
    match a
    case ParseBlock => ParseKeeps(k, rows, raws);
    case Save(ok) => SaveKeeps(k, ok, rows, raws);
    case Ack => AckKeeps(k, rows, raws);
    case _ =>
  }

  lemma OtherMoveKeeps(k: Conn, a: Action, rows: seq<Row>, raws: seq<RawRow>)
    requires ConnInv(k, rows, raws) && OtherMove(k, a).To?
    ensures OtherMove(k, a).rows == []
    ensures ConnInv(OtherMove(k, a).conn, rows, raws + OtherMove(k, a).raws)
  {
    hide Parse, Imei.DecodeIMEI, Imei.HexEncode, Pad, ReplyBytes, Kept;
    assert raws + [] == raws;
  }

  lemma MoveKeeps(k: Conn, a: Action, rows: seq<Row>, raws: seq<RawRow>)
    requires ConnInv(k, rows, raws) && Move(k, a).To?
    ensures ConnInv(Move(k, a).conn, rows + Move(k, a).rows, raws + Move(k, a).raws)
  {
    hide ConnInv, ClientMove, ReceiveMove, PacketMove, OtherMove;
    assert rows + [] == rows && raws + [] == raws;
    match a
    case ForeignSend(_) => ClientMoveKeeps(k, a, rows, raws);
    case Authenticate => ClientMoveKeeps(k, a, rows, raws);
    case AuthReply => ClientMoveKeeps(k, a, rows, raws);
    case SendPoints(_) => ClientMoveKeeps(k, a, rows, raws);
    case AckReply => ClientMoveKeeps(k, a, rows, raws);
    case Read => ReceiveMoveKeeps(k, a, rows, raws);
    case ReadFails => ReceiveMoveKeeps(k, a, rows, raws);
    case Greet => ReceiveMoveKeeps(k, a, rows, raws);
    case Spawn => ReceiveMoveKeeps(k, a, rows, raws);
    case ParseBlock => PacketMoveKeeps(k, a, rows, raws);
    case Save(_) => PacketMoveKeeps(k, a, rows, raws);
    case Ack => PacketMoveKeeps(k, a, rows, raws);
    case RunRaw(_, _) => OtherMoveKeeps(k, a, rows, raws);
    case CallDone => OtherMoveKeeps(k, a, rows, raws);
    case CloseConn => OtherMoveKeeps(k, a, rows, raws);
  }

  // ---------------------------------------------------------------- one table for all connections

  lemma RowsForNext(table: seq<Stored>, stored: Stored, c: nat)
    ensures RowsFor(table + [stored], c) == RowsFor(table, c) + if stored.conn == c then [stored.row] else []
  {
    assert (table + [stored])[..|table|] == table;
  }

  lemma RawsForNext(rawLog: seq<RawStored>, stored: RawStored, c: nat)
    ensures RawsFor(rawLog + [stored], c) == RawsFor(rawLog, c) + if stored.conn == c then [stored.raw] else []
  {
    assert (rawLog + [stored])[..|rawLog|] == rawLog;
  }

  lemma {:induction false} RowsForCat(table: seq<Stored>, d: nat, rows: seq<Row>, c: nat)
    ensures RowsFor(table + TagRows(d, rows), c) == RowsFor(table, c) + if d == c then rows else []
  {
    hide RowsFor;
    if rows == [] {
      assert table + TagRows(d, rows) == table;
    } else {
      var n := |rows| - 1;
      RowsForCat(table, d, rows[..n], c);
      RowsForNext(table + TagRows(d, rows[..n]), Stored(d, rows[n]), c);
      assert table + TagRows(d, rows) == table + TagRows(d, rows[..n]) + [Stored(d, rows[n])];
      assert rows == rows[..n] + [rows[n]];
    }
  }

  lemma {:induction false} RawsForCat(rawLog: seq<RawStored>, d: nat, raws: seq<RawRow>, c: nat)
    ensures RawsFor(rawLog + TagRaws(d, raws), c) == RawsFor(rawLog, c) + if d == c then raws else []
  {
    hide RawsFor;
    if raws == [] {
      assert rawLog + TagRaws(d, raws) == rawLog;
    } else {
      var n := |raws| - 1;
      RawsForCat(rawLog, d, raws[..n], c);
      RawsForNext(rawLog + TagRaws(d, raws[..n]), RawStored(d, raws[n]), c);
      assert rawLog + TagRaws(d, raws) == rawLog + TagRaws(d, raws[..n]) + [RawStored(d, raws[n])];
      assert raws == raws[..n] + [raws[n]];
    }
  }

  /** The invariant of every connection against its share of the table and the log, and nothing for the others. */
  ghost predicate Inv(s: State) {
    forall c: nat ::
      if c in s.conns then ConnInv(s.conns[c], RowsFor(s.table, c), RawsFor(s.rawLog, c))
      else RowsFor(s.table, c) == [] && RawsFor(s.rawLog, c) == []
  }

  lemma ApplyKeeps(s: State, step: Step)
    requires Inv(s) && Apply(s, step).Some?
    ensures Inv(Apply(s, step).value)
  {
    hide ConnInv, Move, RowsFor, RawsFor, TagRows, TagRaws, Opened;
    var s' := Apply(s, step).value;
    match step
    case Connect(d, imei) =>
      OpenedInv(ClientFor(imei));
    case Act(d, a) =>
      if Move(s.conns[d], a).To? {
        var To(k, rows, raws) := Move(s.conns[d], a);
        MoveKeeps(s.conns[d], a, RowsFor(s.table, d), RawsFor(s.rawLog, d));
        forall c: nat
          ensures if c in s'.conns then ConnInv(s'.conns[c], RowsFor(s'.table, c), RawsFor(s'.rawLog, c))
                  else RowsFor(s'.table, c) == [] && RawsFor(s'.rawLog, c) == []
        {
          RowsForCat(s.table, d, rows, c);
          RawsForCat(s.rawLog, d, raws, c);
          assert RowsFor(s.table, c) + [] == RowsFor(s.table, c);
          assert RawsFor(s.rawLog, c) + [] == RawsFor(s.rawLog, c);
        }
      }
  }

  lemma {:induction false} RunKeeps(steps: seq<Step>)
    requires Run(steps).Some?
    ensures Inv(Run(steps).value)
  {
    hide Apply, ConnInv;
    if steps == [] {
    } else {
      RunKeeps(steps[..|steps| - 1]);
      ApplyKeeps(Run(steps[..|steps| - 1]).value, steps[|steps| - 1]);
    }
  }

  // ---------------------------------------------------------------- safety over all runs

  /** Every parsed point carries the IMEI it was parsed for. */
  lemma ParsedImei(data: seq<uint8>, imei: seq<uint8>)
    requires Parse(data, imei).Ok?
    ensures forall p <- Parse(data, imei).value :: p.imei == imei
  {
    hide ReadFrame, FitsStages, DecodeStages, Coordinate;
  }

  lemma {:induction false} KeptImei(k: Conn, n: nat)
    requires Counts(k) && Contents(k) && n <= |k.batches|
    ensures forall row <- Kept(k.batches[..n], k.verdicts[..n]) :: row.imei == k.imei
    decreases n
  {
    hide Parse, Pad;
    if n == 0 {
    } else {
      KeptImei(k, n - 1);
      assert k.batches[n - 1] != [] && Parse(Pad(k.uplink[n - 1 + 1]), k.imei) == Ok(k.batches[n - 1]);
      assert k.batches[..n][..n - 1] == k.batches[..n - 1] && k.verdicts[..n][..n - 1] == k.verdicts[..n - 1];
      ParsedImei(Pad(k.uplink[n]), k.imei);
    }
  }

  lemma MoveBlocks(k: Conn, a: Action)
    requires Move(k, a).To?
    ensures forall b <- Move(k, a).conn.uplink :: b in k.uplink || |b| <= BUFFER_SIZE
  {
    hide Parse, Pad, MakePacket, Imei.DecodeIMEI, Imei.EncodeIMEIToHex, Imei.HexEncode, RowsOf;
    if a.Authenticate? && k.client.Simulator? {
      Imei.EncodeIff(k.client.imei);
    }
  }

  /** Every block written fits the read buffer. */
  lemma {:induction false} BlocksFit(steps: seq<Step>, c: nat)
    requires Run(steps).Some? && c in Run(steps).value.conns
    ensures forall b <- Run(steps).value.conns[c].uplink :: |b| <= BUFFER_SIZE
  {
    hide Move;
    if steps == [] {
    } else {
      var n := |steps| - 1;
      var s, step := Run(steps[..n]).value, steps[n];
      if c in s.conns {
        BlocksFit(steps[..n], c);
        if step.Act? && step.id == c && Move(s.conns[c], step.action).To? {
          MoveBlocks(s.conns[c], step.action);
        }
      }
    }
  }

  lemma PaddedSize(block: seq<uint8>)
    requires |block| <= BUFFER_SIZE
    ensures |Pad(block)| == BUFFER_SIZE
  {
  }

  lemma FewPoints(k: Conn)
    requires Counts(k) && Contents(k) && forall b <- k.uplink :: |b| <= BUFFER_SIZE
    ensures forall batch <- k.batches :: 0 < |batch| <= 53
  {
    hide Parse, Pad, Imei.DecodeIMEI;
    forall batch | batch in k.batches ensures 0 < |batch| <= 53 {
      var i :| 0 <= i < |k.batches| && k.batches[i] == batch;
      assert k.batches[i] != [] && Parse(Pad(k.uplink[i + 1]), k.imei) == Ok(k.batches[i]);
      PaddedSize(k.uplink[i + 1]);
      AcceptedBound(Pad(k.uplink[i + 1]), k.imei);
    }
  }

  /**
   In every run, whatever the interleaving, each connection has written one byte 1 and then one acknowledgement
   per answered packet; its rows in the shared table are the whole accepted packets that were stored, in their
   order, all under the IMEI of its first block; its raw rows are its own buffers under that IMEI, each at most
   once; at most one raw save has been started for which no acknowledgement was written yet; and no packet has so
   many points that the acknowledging byte would not be their number.
   */
  lemma Safety(steps: seq<Step>, c: nat)
    requires Run(steps).Some? && c in Run(steps).value.conns
    ensures var s := Run(steps).value;
            var k := s.conns[c];
            var rows := RowsFor(s.table, c);
            Counts(k) && Contents(k)
            && k.output == (if k.replies == 0 then [] else ReplyBytes(k.batches[..k.replies - 1]))
            && rows == Kept(k.batches, k.verdicts)
            && (forall row <- rows :: row.imei == k.imei)
            && (forall r <- RawsFor(s.rawLog, c) ::
                  r.imei == k.imei && r.index + 1 < |k.uplink|
                  && r.payload == Imei.HexEncode(Pad(k.uplink[r.index + 1])))
            && (forall i, j | 0 <= i < j < |RawsFor(s.rawLog, c)| ::
                  RawsFor(s.rawLog, c)[i].index != RawsFor(s.rawLog, c)[j].index)
            && (if k.replies == 0 then k.spawned == 0 else k.replies - 1 <= k.spawned <= k.replies)
            && (forall batch <- k.batches :: 0 < |batch| <= 53)
  {
    hide Run, Parse, Pad, Kept, ReplyBytes, Imei.HexEncode, Imei.DecodeIMEI;
    RunKeeps(steps);
    BlocksFit(steps, c);
    var s := Run(steps).value;
    var k := s.conns[c];
    assert ConnInv(k, RowsFor(s.table, c), RawsFor(s.rawLog, c));
    KeptImei(k, |k.batches|);
    FewPoints(k);
    assert k.batches[..|k.batches|] == k.batches && k.verdicts[..|k.verdicts|] == k.verdicts;
  }

  lemma MoveForward(k: Conn, a: Action)
    requires Move(k, a).To?
    ensures k.uplink <= Move(k, a).conn.uplink && k.batches <= Move(k, a).conn.batches
            && k.output <= Move(k, a).conn.output
            && (k.authenticated ==> Move(k, a).conn.authenticated)
  {
    hide Parse, Pad, MakePacket, Imei.DecodeIMEI, Imei.EncodeIMEIToHex, Imei.HexEncode, RowsOf;
  }

  /** Later states of a run extend the histories of every connection. */
  lemma {:induction false} RunForward(steps: seq<Step>, more: seq<Step>, c: nat)
    requires Run(steps + more).Some?
    ensures Run(steps).Some?
    ensures c in Run(steps).value.conns ==>
              c in Run(steps + more).value.conns
              && var k, k' := Run(steps).value.conns[c], Run(steps + more).value.conns[c];
                 k.uplink <= k'.uplink && k.batches <= k'.batches && k.output <= k'.output
                 && (k.authenticated ==> k'.authenticated)
    decreases |more|
  {
    hide Move;
    if more == [] {
      assert steps + more == steps;
    } else {
      var n := |more| - 1;
      assert (steps + more)[..|steps + more| - 1] == steps + more[..n];
      RunForward(steps, more[..n], c);
      var s, step := Run(steps + more[..n]).value, more[n];
      assert Apply(s, step).Some?;
      if step.Act? && Move(s.conns[step.id], step.action).To? {
        MoveForward(s.conns[step.id], step.action);
      }
    }
  }

  /** A connection's IMEI is set once, by its first block, and never changes. */
  lemma ImeiStable(steps: seq<Step>, more: seq<Step>, c: nat)
    requires Run(steps + more).Some?
    requires Run(steps).Some? && c in Run(steps).value.conns && Run(steps).value.conns[c].authenticated
    ensures c in Run(steps + more).value.conns
    ensures var k, k' := Run(steps).value.conns[c], Run(steps + more).value.conns[c];
            k'.authenticated && k'.imei == k.imei && k.uplink != []
            && Imei.DecodeIMEI(k.uplink[0]) == Imei.Ok(k.imei)
  {
    hide Run, Contents, Written, RawsKept, Imei.DecodeIMEI;
    RunForward(steps, more, c);
    RunKeeps(steps);
    RunKeeps(steps + more);
    var s, s' := Run(steps).value, Run(steps + more).value;
    var k, k' := s.conns[c], s'.conns[c];
    assert ConnInv(k, RowsFor(s.table, c), RawsFor(s.rawLog, c));
    assert ConnInv(k', RowsFor(s'.table, c), RawsFor(s'.rawLog, c));
    FirstBlock(k);
    FirstBlock(k');
  }

  lemma FirstBlock(k: Conn)
    requires Counts(k) && Contents(k) && k.authenticated
    ensures k.uplink != [] && Imei.DecodeIMEI(k.uplink[0]) == Imei.Ok(k.imei)
  {
    hide Imei.DecodeIMEI, Parse, Pad;
  }

  // ---------------------------------------------------------------- the simulator against the handler

  /** A packet the simulator sends: at least one point, and short enough for one read. */
  predicate Sendable(points: seq<AvlData>) {
    points != [] && |MakePacket(points)| <= BUFFER_SIZE
  }

  /** Bytes of the first `n` replies. */
  function ReplyLength(n: nat): nat {
    if n == 0 then 0 else 4 * n - 3
  }

  predicate SimCounts(k: Conn)
    requires k.client.Simulator?
  {
    var Simulator(imei, batches, received, stage) := k.client;
    if stage == Starting then k.uplink == [] && batches == [] && received == 0 && k.consumed == 0
    else if stage == Failed then |imei| != 15 && k.uplink == [] && batches == [] && received == 0
    else
      && |imei| == 15
      && |k.uplink| == |batches| + 1
      && received == |k.uplink| - (if stage == Ready then 0 else 1)
      && (stage == AwaitingAuth <==> received == 0)
      && k.consumed == ReplyLength(received)
      && received <= k.replies
  }

  predicate SimInv(k: Conn)
    requires k.client.Simulator?
  {
    && SimCounts(k)
    && (k.uplink != [] ==>
          k.uplink[0] == [0, 15] + k.client.imei
          && |k.client.batches| + 1 == |k.uplink|
          && forall i | 0 <= i < |k.client.batches| ::
               Sendable(k.client.batches[i]) && k.uplink[i + 1] == MakePacket(k.client.batches[i]))
    && (k.phase.Leaving? || k.phase.Deregistered? || k.phase.Closed? ==> k.readFailed)
  }

  /** What the server makes of a packet of the simulator, padded to the buffer size. */
  lemma PacketParsed(points: seq<AvlData>, imei: seq<uint8>)
    requires Sendable(points)
    ensures Parse(Pad(MakePacket(points)), imei) == Ok(ReceivedAll(points, imei))
    ensures ReceivedAll(points, imei) != [] && |points| <= 53
  {
    hide MakePacket, Parse, ReceivedAll, PointsSize;
    PacketSize(points);
    SmallPacketFits(points);
    var n := BUFFER_SIZE - |MakePacket(points)|;
    RoundTrip(points, Zeros(n), imei);
    ReceivedLength(points, imei);
  }

  lemma ReceivedLength(points: seq<AvlData>, imei: seq<uint8>)
    ensures |ReceivedAll(points, imei)| == |points|
  {
  }

  lemma {:induction false} ReplyBytesLength(batches: seq<seq<Point>>)
    ensures |ReplyBytes(batches)| == ReplyLength(|batches| + 1)
  {
    if batches == [] {
    } else {
      ReplyBytesLength(batches[..|batches| - 1]);
    }
  }

  lemma ReplyAt(batches: seq<seq<Point>>)
    requires batches != []
    ensures |ReplyBytes(batches)| == ReplyLength(|batches|) + 4
    ensures ReplyBytes(batches)[ReplyLength(|batches|) + 3] == |batches[|batches| - 1]| % 0x100
  {
    ReplyBytesLength(batches[..|batches| - 1]);
  }

  /** The handler's IMEI and batches, in terms of what the simulator sent. */
  lemma SimContents(k: Conn)
    requires Counts(k) && Contents(k) && k.client.Simulator? && SimInv(k)
    ensures k.authenticated ==> k.imei == k.client.imei
    ensures |k.batches| <= |k.client.batches|
    ensures forall i | 0 <= i < |k.batches| :: k.batches[i] == ReceivedAll(k.client.batches[i], k.client.imei)
  {
    hide Parse, Imei.DecodeIMEI, Pad, MakePacket, ReceivedAll, Sendable;
    if k.authenticated {
      SimImei(k.client.imei);
      forall i | 0 <= i < |k.batches|
        ensures k.batches[i] == ReceivedAll(k.client.batches[i], k.client.imei)
      {
        PacketParsed(k.client.batches[i], k.client.imei);
      }
    }
  }

  lemma SimImei(imei: seq<uint8>)
    requires |imei| == 15
    ensures Imei.EncodeIMEIToHex(imei) == Imei.Ok([0, 15] + imei)
    ensures Imei.DecodeIMEI([0, 15] + imei) == Imei.Ok(imei)
  {
    hide Imei.EncodeIMEIToHex, Imei.DecodeIMEI;
    Imei.EncodeIff(imei);
    Imei.DecodeEncoded(imei);
  }

  lemma AuthReplyGood(k: Conn)
    requires Counts(k) && Contents(k) && Written(k) && k.client.Simulator? && SimInv(k)
    requires k.client.stage == AwaitingAuth && |k.output| >= k.consumed + 1
    ensures k.output[k.consumed] == 1 && k.replies == 1
  {
    hide Parse, Imei.DecodeIMEI, Pad, MakePacket, Sendable;
    assert k.replies == 1;
    assert k.batches[..0] == [];
    FirstReply();
  }

  lemma AckReplyGood(k: Conn)
    requires Counts(k) && Contents(k) && Written(k) && k.client.Simulator? && SimInv(k)
    requires k.client.stage == AwaitingAck && |k.output| >= k.consumed + 4
    ensures k.client.batches != [] && k.replies == k.client.received + 1
    ensures k.output[k.consumed + 3] == |k.client.batches[|k.client.batches| - 1]| % 0x100
  {
    hide Parse, Imei.DecodeIMEI, Pad, MakePacket, ReceivedAll, ReplyBytes, Sendable;
    SimContents(k);
    if k.replies > 0 { ReplyBytesLength(k.batches[..k.replies - 1]); }
    assert k.replies == k.client.received + 1;
    var sent := k.client.batches[|k.client.batches| - 1];
    var acked := k.batches[..k.replies - 1];
    assert acked[|acked| - 1] == ReceivedAll(sent, k.client.imei);
    ReplyAt(acked);
    ReceivedLength(sent, k.client.imei);
  }

  lemma SimClientKeeps(k: Conn, a: Action)
    requires Counts(k) && Contents(k) && Written(k) && k.client.Simulator? && SimInv(k)
    requires ClientMove(k, a).To?
    ensures var k' := ClientMove(k, a).conn;
            k'.client.Simulator? && SimInv(k')
            && (k'.client.stage == Failed ==> |k.client.imei| != 15)
  {
    hide Contents, Written, Imei.EncodeIMEIToHex, MakePacket;
    Imei.EncodeIff(k.client.imei);
    match a
    case AuthReply => AuthReplyGood(k);
    case AckReply => AckReplyGood(k);
    case _ =>
  }

  lemma FirstReply()
    ensures ReplyBytes([]) == [1]
  {
  }

  lemma SimReceiveKeeps(k: Conn, a: Action)
    requires Counts(k) && Contents(k) && k.client.Simulator? && SimInv(k) && ReceiveMove(k, a).To?
    ensures var k' := ReceiveMove(k, a).conn; k'.client == k.client && SimInv(k')
  {
    hide Parse, Imei.DecodeIMEI, Pad, MakePacket, Sendable;
    if k.phase.Greeting? && |k.client.imei| == 15 {
      SimImei(k.client.imei);
    }
  }

  lemma SimPacketKeeps(k: Conn, a: Action)
    requires Counts(k) && Contents(k) && k.client.Simulator? && SimInv(k)
    ensures PacketMove(k, a) != Crash
    ensures PacketMove(k, a).To? ==> var k' := PacketMove(k, a).conn; k'.client == k.client && SimInv(k')
  {
    hide Parse, Imei.DecodeIMEI, Pad, MakePacket, ReceivedAll, RowsOf, Sendable;
    SimContents(k);
    if k.phase.Parsing? && |k.client.imei| == 15 {
      PacketParsed(k.client.batches[k.taken - 2], k.client.imei);
    }
  }

  lemma SimOtherKeeps(k: Conn, a: Action)
    requires k.client.Simulator? && SimInv(k) && OtherMove(k, a).To?
    ensures var k' := OtherMove(k, a).conn; k'.client == k.client && SimInv(k')
  {
    hide Imei.HexEncode, Pad, MakePacket, Sendable;
  }

  /** Moves of the handler keep what the simulator relies on, and never crash the server on its packets. */
  lemma SimServerKeeps(k: Conn, a: Action)
    requires Counts(k) && Contents(k) && k.client.Simulator? && SimInv(k)
    ensures Move(k, a) != Crash
    ensures Move(k, a).To? && !ClientMove(k, a).To? ==>
              var k' := Move(k, a).conn;
              k'.client == k.client && SimInv(k')
  {
    hide ReceiveMove, PacketMove, OtherMove, SimInv, Counts, Contents, MakePacket, Imei.EncodeIMEIToHex;
    if ReceiveMove(k, a).To? { SimReceiveKeeps(k, a); }
    SimPacketKeeps(k, a);
    if OtherMove(k, a).To? { SimOtherKeeps(k, a); }
    NoOtherCrash(k, a);
  }

  lemma NoOtherCrash(k: Conn, a: Action)
    ensures ClientMove(k, a) != Crash && ReceiveMove(k, a) != Crash && OtherMove(k, a) != Crash
  {
    hide Imei.HexEncode, Imei.DecodeIMEI, Imei.EncodeIMEIToHex, Pad, MakePacket;
  }

  /** Simulators and their handlers, and who can have crashed the server. */
  ghost predicate SimsInv(s: State) {
    && (forall c <- s.conns :: s.conns[c].client.Simulator? ==> SimInv(s.conns[c]))
    && (s.crashed.Some? ==> s.crashed.value in s.conns && s.conns[s.crashed.value].client.Foreign?)
  }

  lemma ClientKindStays(k: Conn, a: Action)
    requires Move(k, a).To?
    ensures Move(k, a).conn.client.Simulator? <==> k.client.Simulator?
    ensures k.client.Simulator? ==> Move(k, a).conn.client.imei == k.client.imei
  {
    hide Parse, Imei.DecodeIMEI, Imei.EncodeIMEIToHex, Imei.HexEncode, Pad, MakePacket, RowsOf;
  }

  lemma SimMoveKeeps(k: Conn, a: Action)
    requires Counts(k) && Contents(k) && Written(k) && k.client.Simulator? && SimInv(k)
    ensures Move(k, a) != Crash
    ensures Move(k, a).To? ==> Move(k, a).conn.client.Simulator? && SimInv(Move(k, a).conn)
  {
    hide ReceiveMove, PacketMove, OtherMove, SimInv, Contents, Counts, Written, MakePacket, Imei.EncodeIMEIToHex;
    SimServerKeeps(k, a);
    if Move(k, a).To? && ClientMove(k, a).To? {
      SimClientKeeps(k, a);
    }
  }

  lemma ApplyKeepsSims(s: State, step: Step)
    requires Inv(s) && SimsInv(s) && Apply(s, step).Some?
    ensures SimsInv(Apply(s, step).value)
  {
    hide Move, SimInv, RowsFor, RawsFor, TagRows, TagRaws, Kept, RawsKept, Counts, Contents, Written, Opened;
    match step
    case Connect(d, imei) =>
      OpenedSim(ClientFor(imei));
    case Act(d, a) =>
      var k := s.conns[d];
      assert ConnInv(k, RowsFor(s.table, d), RawsFor(s.rawLog, d));
      if k.client.Simulator? {
        SimMoveKeeps(k, a);
      }
      if Move(k, a).To? {
        ClientKindStays(k, a);
      }
  }

  lemma OpenedSim(client: Client)
    requires client.Foreign? || (client.stage == Starting && client.batches == [] && client.received == 0)
    ensures Opened(client).client == client
    ensures client.Simulator? ==> SimInv(Opened(client))
  {
  }

  lemma {:induction false} RunKeepsSims(steps: seq<Step>)
    requires Run(steps).Some?
    ensures SimsInv(Run(steps).value)
  {
    hide Apply, Inv, SimInv;
    if steps == [] {
    } else {
      RunKeeps(steps[..|steps| - 1]);
      RunKeepsSims(steps[..|steps| - 1]);
      ApplyKeepsSims(Run(steps[..|steps| - 1]).value, steps[|steps| - 1]);
    }
  }

  /** The rows of packets as sent: what a table that stored them all would hold. */
  function SentRows(batches: seq<seq<AvlData>>, imei: seq<uint8>): seq<Row> {
    if batches == [] then []
    else
      var n := |batches| - 1;
      SentRows(batches[..n], imei) + RowsOf(ReceivedAll(batches[n], imei))
  }

  predicate AllSaved(verdicts: seq<bool>) {
    forall i | 0 <= i < |verdicts| :: verdicts[i]
  }

  lemma {:induction false} KeptIsSent(ps: seq<seq<Point>>, verdicts: seq<bool>, batches: seq<seq<AvlData>>,
                                      imei: seq<uint8>)
    requires |ps| == |verdicts| == |batches| && AllSaved(verdicts)
    requires forall i | 0 <= i < |ps| :: ps[i] == ReceivedAll(batches[i], imei)
    ensures Kept(ps, verdicts) == SentRows(batches, imei)
    decreases |ps|
  {
    hide ReceivedAll, RowsOf;
    if ps == [] {
    } else {
      var n := |ps| - 1;
      KeptIsSent(ps[..n], verdicts[..n], batches[..n], imei);
    }
  }

  /**
   A device, in every run and whatever the other connections do: none of its calls fails its check, except that
   one whose IMEI does not have 15 bytes sends nothing; at most one of its blocks is unanswered, it never crashes
   the server, its handler only returns after a failed read, and the server has parsed exactly the packets sent so
   far, but for the one under way. If the saves succeeded, the table holds exactly the rows of those packets, in
   order; between calls that is all of them.
   */
  lemma EndToEnd(steps: seq<Step>, c: nat)
    requires Run(steps).Some? && c in Run(steps).value.conns
    requires Run(steps).value.conns[c].client.Simulator?
    ensures var s := Run(steps).value;
            var k := s.conns[c];
            var Simulator(imei, sent, received, stage) := k.client;
            var n := |k.batches|;
            (stage == Failed ==> |imei| != 15) && (|imei| != 15 ==> k.uplink == [] && k.output == [])
            && received <= |k.uplink| <= received + 1
            && s.crashed != Some(c)
            && (k.phase.Leaving? || k.phase.Deregistered? || k.phase.Closed? ==> k.readFailed)
            && (if received == 0 then n == 0 else received - 1 <= n <= |sent| <= received)
            && (stage == Ready ==> n == |sent| == received - 1)
            && |k.verdicts| == n
            && (forall i | 0 <= i < n :: k.batches[i] == ReceivedAll(sent[i], imei))
            && RowsFor(s.table, c) == Kept(k.batches, k.verdicts)
            && (AllSaved(k.verdicts) ==> RowsFor(s.table, c) == SentRows(sent[..n], imei))
  {
    hide Run, Parse, Pad, MakePacket, ReceivedAll, Kept, SentRows, Imei.DecodeIMEI, Sendable;
    RunKeeps(steps);
    RunKeepsSims(steps);
    var s := Run(steps).value;
    var k := s.conns[c];
    assert ConnInv(k, RowsFor(s.table, c), RawsFor(s.rawLog, c));
    assert SimInv(k);
    SimContents(k);
    if AllSaved(k.verdicts) {
      KeptIsSent(k.batches, k.verdicts, k.client.batches[..|k.batches|], k.client.imei);
    }
  }

  // ---------------------------------------------------------------- a call can always finish

  /** The handler is still serving the connection. */
  predicate Serving(k: Conn) {
    !k.phase.Leaving? && !k.phase.Deregistered? && !k.phase.Closed?
  }

  predicate Waiting(k: Conn) {
    k.client.Simulator? && (k.client.stage == AwaitingAuth || k.client.stage == AwaitingAck)
  }

  /** The one action that moves a waiting call on, and how many of them are left. */
  function NextAction(k: Conn): Action {
    match k.phase
    case AwaitRead =>
      if k.taken < |k.uplink| then Read
      else if k.client.Simulator? && k.client.stage == AwaitingAuth then AuthReply else AckReply
    case Greeting => Greet
    case Arrived => Spawn
    case Parsing => ParseBlock
    case Saving(_) => Save(true)
    case Acking(_) => Ack
    case _ => CallDone
  }

  function Remaining(k: Conn): nat {
    match k.phase
    case AwaitRead => if k.taken < |k.uplink| then 6 else 1
    case Greeting => 2
    case Arrived => 5
    case Parsing => 4
    case Saving(_) => 3
    case Acking(_) => 2
    case _ => 0
  }

  lemma PendingPacketParses(k: Conn)
    requires Counts(k) && Contents(k) && k.client.Simulator? && SimInv(k) && k.phase.Parsing?
    ensures 0 < k.taken <= |k.uplink|
    ensures var parsed := Parse(Pad(k.uplink[k.taken - 1]), k.imei); parsed.Ok? && parsed.value != []
  {
    hide Parse, Imei.DecodeIMEI, Pad, MakePacket, ReceivedAll, Sendable;
    SimContents(k);
    PacketParsed(k.client.batches[k.taken - 2], k.client.imei);
  }

  lemma WaitingReceiveMoves(k: Conn, a: Action)
    requires Counts(k) && Contents(k) && k.client.Simulator? && SimInv(k) && Waiting(k)
    requires ReceiveMove(k, a).To? && a != ReadFails
    ensures var k' := ReceiveMove(k, a).conn;
            k'.client == k.client && Serving(k') && Remaining(k') < Remaining(k)
  {
    hide Parse, Imei.DecodeIMEI, Pad, MakePacket, Sendable;
    if a.Greet? {
      SimImei(k.client.imei);
    }
  }

  lemma WaitingPacketMoves(k: Conn, a: Action)
    requires Counts(k) && Contents(k) && k.client.Simulator? && SimInv(k) && Waiting(k)
    requires PacketMove(k, a).To?
    ensures var k' := PacketMove(k, a).conn;
            k'.client == k.client && Serving(k') && Remaining(k') < Remaining(k)
  {
    hide Parse, Pad, RowsOf, Contents, MakePacket, Sendable;
    if k.phase.Parsing? {
      PendingPacketParses(k);
    }
  }

  lemma HandlerMoves(k: Conn)
    requires Counts(k) && Contents(k) && k.client.Simulator? && SimInv(k) && Waiting(k) && Serving(k)
    requires Remaining(k) > 1
    ensures Move(k, NextAction(k)).To?
    ensures var k' := Move(k, NextAction(k)).conn;
            k'.client == k.client && Serving(k') && Remaining(k') < Remaining(k)
  {
    hide Imei.DecodeIMEI, Parse, Pad, RowsOf, Contents, SimInv;
    var a := NextAction(k);
    if k.phase.Parsing? || k.phase.Saving? || k.phase.Acking? {
      if k.phase.Parsing? {
        PendingPacketParses(k);
      }
      WaitingPacketMoves(k, a);
    } else {
      if k.phase.Greeting? {
        GreetingSucceeds(k);
      }
      WaitingReceiveMoves(k, a);
    }
  }

  lemma GreetingSucceeds(k: Conn)
    requires Counts(k) && k.client.Simulator? && SimInv(k) && Waiting(k) && k.phase.Greeting?
    ensures Imei.DecodeIMEI(k.uplink[k.taken - 1]) == Imei.Ok(k.client.imei)
  {
    hide Imei.DecodeIMEI, MakePacket, Sendable;
    SimImei(k.client.imei);
  }

  lemma ReplyMoves(k: Conn)
    requires Counts(k) && Contents(k) && Written(k) && k.client.Simulator? && SimInv(k) && Waiting(k)
    requires Remaining(k) == 1
    ensures Move(k, NextAction(k)).To?
    ensures var k' := Move(k, NextAction(k)).conn;
            k'.client.Simulator? && Serving(k') && k'.client.stage == Ready && k'.client.batches == k.client.batches
            && k'.client.imei == k.client.imei
  {
    hide Parse, Imei.DecodeIMEI, Pad, MakePacket, ReceivedAll, Sendable, ReplyBytes;
    if k.replies > 0 {
      ReplyBytesLength(k.batches[..k.replies - 1]);
    }
    SimClientKeeps(k, NextAction(k));
  }

  /**
   No deadlock: from every state in which a device waits for an answer and its handler is serving, at most six
   steps of that connection alone complete the call, if nothing else has crashed the server.
   */
  lemma {:induction false} CallCompletes(steps: seq<Step>, c: nat) returns (more: seq<Step>)
    requires Run(steps).Some? && Run(steps).value.crashed.None? && c in Run(steps).value.conns
    requires Waiting(Run(steps).value.conns[c]) && Serving(Run(steps).value.conns[c])
    ensures |more| <= 6 && forall step <- more :: step.Act? && step.id == c && step.action != Save(false)
    ensures Run(steps + more).Some? && c in Run(steps + more).value.conns
    ensures var k, k' := Run(steps).value.conns[c], Run(steps + more).value.conns[c];
            k'.client.Simulator? && k'.client.stage == Ready && k'.client.batches == k.client.batches
            && k'.client.imei == k.client.imei && Serving(k') && Run(steps + more).value.crashed.None?
  {
    hide Run, Move, NextAction, Remaining, Serving, Waiting;
    ServingRemains(Run(steps).value.conns[c]);
    more := CompleteWithin(steps, c, Remaining(Run(steps).value.conns[c]));
  }

  lemma {:induction false} CompleteWithin(steps: seq<Step>, c: nat, n: nat) returns (more: seq<Step>)
    requires Run(steps).Some? && Run(steps).value.crashed.None? && c in Run(steps).value.conns
    requires Waiting(Run(steps).value.conns[c]) && Serving(Run(steps).value.conns[c])
    requires n == Remaining(Run(steps).value.conns[c])
    ensures |more| <= n && forall step <- more :: step.Act? && step.id == c && step.action != Save(false)
    ensures Run(steps + more).Some? && c in Run(steps + more).value.conns
    ensures var k, k' := Run(steps).value.conns[c], Run(steps + more).value.conns[c];
            k'.client.Simulator? && k'.client.stage == Ready && k'.client.batches == k.client.batches
            && k'.client.imei == k.client.imei && Serving(k') && Run(steps + more).value.crashed.None?
    decreases n
  {
    hide Move, SimInv, Counts, Contents, Written, Kept, RawsKept, NextAction, Remaining, RowsFor, RawsFor, TagRows,
         TagRaws;
    RunKeeps(steps);
    RunKeepsSims(steps);
    var s := Run(steps).value;
    var k := s.conns[c];
    assert ConnInv(k, RowsFor(s.table, c), RawsFor(s.rawLog, c));
    assert n > 0 by { ServingRemains(k); }
    var step := Act(c, NextAction(k));
    NextSaves(k);
    if n > 1 { HandlerMoves(k); } else { ReplyMoves(k); }
    assert (steps + [step])[..|steps + [step]| - 1] == steps;
    assert Run(steps + [step]) == Apply(s, step);
    if n > 1 {
      var later := CompleteWithin(steps + [step], c, Remaining(Move(k, NextAction(k)).conn));
      more := [step] + later;
      assert steps + more == (steps + [step]) + later;
    } else {
      more := [step];
    }
  }

  lemma NextSaves(k: Conn)
    ensures NextAction(k) != Save(false)
  {
  }

  lemma ServingRemains(k: Conn)
    requires Serving(k)
    ensures 0 < Remaining(k) <= 6
  {
  }

  // ---------------------------------------------------------------- and every schedule finishes it

  lemma WaitingClientMoves(k: Conn, a: Action)
    requires Counts(k) && Contents(k) && Written(k) && k.client.Simulator? && SimInv(k) && Waiting(k)
    requires ClientMove(k, a).To?
    ensures var k' := ClientMove(k, a).conn;
            k'.client.Simulator? && k'.client.stage == Ready && k'.client.batches == k.client.batches
  {
    hide Contents, Written, Imei.EncodeIMEIToHex, MakePacket;
    SimClientKeeps(k, a);
  }

  /** Every move of a waiting connection but a raw save or a failing read completes the call or leaves less to do. */
  lemma WaitingMoves(k: Conn, a: Action)
    requires Counts(k) && Contents(k) && Written(k) && k.client.Simulator? && SimInv(k) && Waiting(k) && Serving(k)
    requires Move(k, a).To? && a != ReadFails
    ensures var k' := Move(k, a).conn;
            k'.client.Simulator? && k'.client.batches == k.client.batches
            && (k'.client.stage == Ready
                || (k'.client == k.client && Serving(k')
                    && (if a.RunRaw? then Remaining(k') == Remaining(k) else Remaining(k') < Remaining(k))))
  {
    hide Counts, Contents, Written, SimInv, ClientMove, ReceiveMove, PacketMove, Imei.HexEncode, Pad;
    if ClientMove(k, a).To? && ClientMove(k, a) == Move(k, a) {
      WaitingClientMoves(k, a);
    } else if ReceiveMove(k, a).To? && ReceiveMove(k, a) == Move(k, a) {
      WaitingReceiveMoves(k, a);
    } else if PacketMove(k, a).To? && PacketMove(k, a) == Move(k, a) {
      WaitingPacketMoves(k, a);
    }
  }

  /** The moves of connection `c` among the steps, raw saves not counted. */
  function Moves(steps: seq<Step>, c: nat): nat {
    if steps == [] then 0
    else (if steps[0].Act? && steps[0].id == c && !steps[0].action.RunRaw? then 1 else 0) + Moves(steps[1..], c)
  }

  predicate Answered(s: State, c: nat, batches: seq<seq<AvlData>>) {
    c in s.conns && s.conns[c].client.Simulator? && s.conns[c].client.stage == Ready
    && s.conns[c].client.batches == batches
  }

  /** A waiting connection after one more step of anybody. */
  lemma WaitingSteps(steps: seq<Step>, step: Step, c: nat)
    requires Run(steps).Some? && c in Run(steps).value.conns && Run(steps + [step]).Some?
    requires Waiting(Run(steps).value.conns[c]) && Serving(Run(steps).value.conns[c]) && step != Act(c, ReadFails)
    ensures var k, s' := Run(steps).value.conns[c], Run(steps + [step]).value;
            Answered(s', c, k.client.batches)
            || (c in s'.conns && s'.conns[c].client == k.client && Serving(s'.conns[c])
                && Remaining(s'.conns[c]) + Moves([step], c) <= Remaining(k))
  {
    hide Move, SimInv, Counts, Contents, Written, Kept, RawsKept, Remaining, RowsFor, RawsFor, TagRows, TagRaws;
    RunKeeps(steps);
    RunKeepsSims(steps);
    var s := Run(steps).value;
    var k := s.conns[c];
    assert ConnInv(k, RowsFor(s.table, c), RawsFor(s.rawLog, c));
    assert (steps + [step])[..|steps|] == steps;
    if step.Act? && step.id == c {
      SimMoveKeeps(k, step.action);
      WaitingMoves(k, step.action);
    }
  }

  /**
   Under every schedule, whatever the other connections do: once a waiting connection has made six moves of its own
   after the device's call, raw saves not counted and none of them a failing read, the call has been completed.
   */
  lemma {:induction false} CallInevitable(steps: seq<Step>, more: seq<Step>, c: nat)
    requires Run(steps).Some? && c in Run(steps).value.conns && Run(steps + more).Some?
    requires Waiting(Run(steps).value.conns[c]) && Serving(Run(steps).value.conns[c])
    requires Act(c, ReadFails) !in more && Moves(more, c) >= 6
    ensures exists n: nat :: n <= |more| && Run(steps + more[..n]).Some?
              && Answered(Run(steps + more[..n]).value, c, Run(steps).value.conns[c].client.batches)
  {
    hide Run, Moves, Answered;
    ServingRemains(Run(steps).value.conns[c]);
    var n := AnsweredWithin(steps, more, c);
  }

  lemma {:induction false} AnsweredWithin(steps: seq<Step>, more: seq<Step>, c: nat) returns (n: nat)
    requires Run(steps).Some? && c in Run(steps).value.conns && Run(steps + more).Some?
    requires Waiting(Run(steps).value.conns[c]) && Serving(Run(steps).value.conns[c])
    requires Act(c, ReadFails) !in more && Moves(more, c) >= Remaining(Run(steps).value.conns[c])
    ensures n <= |more| && Run(steps + more[..n]).Some?
            && Answered(Run(steps + more[..n]).value, c, Run(steps).value.conns[c].client.batches)
    decreases |more|
  {
    hide Run, Answered, Remaining;
    ServingRemains(Run(steps).value.conns[c]);
    var step, rest := more[0], more[1..];
    assert steps + more == (steps + [step]) + rest;
    RunForward(steps + [step], rest, c);
    WaitingSteps(steps, step, c);
    assert Moves([step], c) + Moves(rest, c) == Moves(more, c);
    if Answered(Run(steps + [step]).value, c, Run(steps).value.conns[c].client.batches) {
      n := 1;
      assert more[..1] == [step];
    } else {
      var m := AnsweredWithin(steps + [step], rest, c);
      n := m + 1;
      assert (steps + [step]) + rest[..m] == steps + more[..n];
    }
  }
}
