# A verified model of the Teltonika tracker server

A Teltonika device opens a TCP connection, sends its IMEI, and then sends packets of location records in the
"Codec 8 Extended" format; the server parses each packet, stores it, and answers with the number of records. This
project models both ends in Dafny and proves what they promise each other.

- `Bytes`, `Wire`: big-endian numbers; raw frames with their serialiser; the scan of a byte string into a raw frame.
- `Elements`: names and values of IO elements, with the bit slicing of the 8-byte CAN elements 145 to 154.
- `Signals`: a table of the signals in those elements, by lowest bit, width, factor and offset, and the proof that the
  decoder reads exactly what the table says.
- `Parser`: the cursor-driven parser as methods on a buffer, proved against the scan; what a parse result depends on.
- `Truncation`: what the parser makes of every cut-off packet in a zeroed buffer.
- `Encoder`: the packet printer with its four stage buffers, proved against the serialiser; round trips; sizes.
- `Crc`: the 16-bit checksum loop, proved against a bit-serial register; its algebra over GF(2).
- `Imei`: the identity message in both directions.
- `Rows`: the element map, the narrowed columns and the batch of one packet.
- `Session`: any number of connections, handlers, raw-save goroutines and simulators as interleaved steps.
- `History`: what the steps of a run tell about its state: which saves happened and what is stored of them; and that
  every session can take place.
- `Crashes`: exactly which blocks crash the server.
- `Handler`, `Device`: the handler's loop and the simulator's calls as sequential code, proved to make exactly the
  moves of `Session`.
- `Lifecycle`: start, accept loop, stop and the wait group as interleaved steps.

Results that a reader may not expect:

- The acceptance theorem is an if-and-only-if: the parser succeeds exactly on byte strings that begin with the
  serialisation of a frame, although it reads the two trailing bytes of a record leniently. The other outcomes (a
  wrong record count, a panic on missing bytes) are characterised the same way.
- Encoding and parsing are inverse exactly up to 255 points and 65535 IO values per point. Beyond that the one-byte
  and two-byte counts wrap around, and the lemma `Encoder.RoundTripExact` says that the data is then always lost.
- A coordinate survives exactly when it is within the range of an int32 in units of 10^-7 degrees.
- Element 146 loses a nibble and element 154 two bytes. Element 145 reports raw speeds from 1600 on alike, except that
  their normal values, in hundredths, still tell ranges of them apart. The others keep the whole payload.
  `Elements.PayloadKept` says so for every identifier, over names, values and normal values.
- Every one of the 70 signals of the CAN elements is read from the bits that `Signals.Layout` says, as `Signals.SignalsRead`
  proves of the decoded elements.
- The checksum finds every change inside 16 consecutive bits. Of the changes inside 17, at any position of any message,
  it misses exactly the polynomial's own bit pattern; in general, exactly the multiples of the polynomial.
- The handler panics, which ends the server, exactly on blocks that read as a packet without records (there is no last
  point to publish) or whose counts announce more than the buffer holds. The parse sees the zeroed buffer, so a packet
  that fits it and is cut off panics in one case only, when it ends right after the codec; any other cut is refused with
  an error or, when at most the four checksum bytes are missing, goes unnoticed.
- `Stop` can return while handlers are still going to serve: `Lifecycle.StopGuarantee` gives the exact condition,
  `Lifecycle.ServingAfterStop` a run, and `Lifecycle.AnyNumberAfterStop` runs with any number of them.

## Model

| member | source | states |
|---|---|---|
| Wire.AcceptedIffFramed | parser/parser.go:44-70 | a buffer is accepted exactly when it begins with the serialisation of some frame |
| Wire.FrameUnique | parser/parser.go:44-70 | at most one frame's serialisation is a prefix of a buffer |
| Wire.FrameSound | parser/parser.go:44-70 | an accepted buffer is the serialisation of the frame read followed by the bytes not consumed |
| Wire.FrameComplete | parser/parser.go:44-70 | every well-formed frame, followed by anything, is read back with nothing more consumed |
| Wire.VerdictExtends | parser/parser.go:44-70 | more bytes at the end never change a verdict other than a panic |
| Wire.InvalidCountIff | parser/parser.go:60-62 | the wrong-count error comes exactly for a header and N records followed by a byte other than N |
| Wire.PanicIffTruncated | parser/parser.go:32-70 | a read runs out of bytes exactly on proper prefixes of a frame, or of its header |
| Wire.RecordSound | parser/parser.go:87-128 | a record read is the one serialised there; only at the end of input may its last two bytes be missing |
| Wire.RecordComplete | parser/parser.go:87-128 | every well-formed record is read back |
| Wire.StagesSound | parser/parser.go:134-155 | the four counted stages read are the ones serialised there |
| Wire.StagesComplete | parser/parser.go:134-155 | four stages of widths 1, 2, 4, 8 and 16-bit counts are read back |
| Wire.ElementsSound | parser/parser.go:137-154 | the counted loop reads exactly the serialised elements |
| Wire.ElementsComplete | parser/parser.go:137-154 | serialised elements of one width are read back in order |
| Wire.HeadSound | parser/parser.go:90-106 | the head fields account for all of the first 26 bytes of a record |
| Wire.HeadComplete | parser/parser.go:90-106 | a serialised head is read back field by field |
| Wire.HeadFields | parser/parser.go:90-106 | every head field is the big-endian number of its bytes, each at its offset |
| Wire.HeaderVerdicts | parser/parser.go:32-58 | the two header errors exactly by the first four bytes and byte 8; an accepted buffer has 0x8e there and its record count at byte 9 |
| Wire.StageBytes | parser/parser.go:134-155 | a stage starts with its count, and each element stands at its place, the id before the value |
| Bytes.PutUint16 | parser/encoder.go:73-88 | the two printed bytes read back as the number, for every 16-bit number |
| Bytes.PutUint32 | parser/utils.go:37-45 | the four printed bytes read back as the number |
| Bytes.PutUint64 | parser/encoder.go:61 | the eight printed bytes read back as the number |
| Bytes.PutUint16Inverts | parser/parser.go:102-106 | printing what was read from two bytes gives them back |
| Bytes.PutUint32Inverts | parser/parser.go:94-98 | the same for four bytes |
| Bytes.PutUint64Inverts | parser/parser.go:90 | the same for eight bytes |
| Bytes.Uint16Is | parser/parser.go:102-106 | reading two bytes gives the sum of each byte times its power of 256, the first one highest |
| Bytes.Uint32Is | parser/parser.go:94-98 | the same for four bytes |
| Bytes.Uint64Is | parser/parser.go:90 | the same for eight bytes |
| Parser.Buffer.Next | parser/parser.go:156 | a short read returns what is left and consumes it, as `bytes.Buffer.Next` does |
| Parser.Buffer.Take | parser/parser.go:34 | a read whose bytes are all accessed panics exactly when they are not there |
| Parser.ParseElement | parser/parser.go:138-153 | one element: its identifier, the bytes of its stage's width, and its decoding |
| Parser.ParseStage | parser/parser.go:134-155 | the loop over one stage appends exactly the decodings of the elements the scan reads |
| Parser.ParseIOElements | parser/parser.go:129-158 | the four stages, total count and trailer: panics exactly where the scan runs short, else the same elements and the same bytes left |
| Parser.ParseHead | parser/parser.go:90-106 | the head fields in order, or a panic exactly when fewer than 26 bytes are left |
| Parser.ParseRecord | parser/parser.go:89-126 | one record of the scan, decoded |
| Parser.ParseCodec8EPacket | parser/parser.go:87-128 | the record loop yields the decodings of the N records the scan reads, in order |
| Parser.ParseHeader | parser/parser.go:32-42 | preamble check, then length, codec and count; each short read panics |
| Parser.ParsePacket | parser/parser.go:44-70 | the imperative parser computes the decoding of the frame at the front of the buffer, or the scan's error |
| Parser.ParseOfFrame | parser/parser.go:44-70 | a serialised frame followed by anything parses to the decoding of its records |
| Parser.ReadingsDecide | parser/parser.go:44-70 | length field, total counts, trailers, CRC bytes and what follows do not affect the parsed points |
| Parser.PaddingIrrelevant | server/handler.go:23-60 | zeros after a buffer change no verdict but a panic; what they make of cut-off packets is `Truncation.TruncatedPacket` |
| Truncation.TruncatedPacket | server/handler.go:23-60 | the exact outcome for every packet and every number of bytes that arrived, the rest being zeros: two errors, no points, or all points |
| Truncation.RecordsCut | parser/parser.go:87-128 | with the end of the records zeroed, the record loop still finishes, no later than before, and nothing but zeros is left to read |
| Truncation.StageCut | parser/parser.go:134-155 | a stage cut anywhere, even inside its count, is read as a stage that is not longer |
| Truncation.EmptyIff | parser/parser.go:44-70 | no points are accepted exactly for 15 bytes with preamble, codec and twice the count 0 |
| Crashes.CrashingParse | server/handler.go:60-81 | parsing a padded block panics or yields no points exactly for a crashing block, whatever the IMEI |
| Crashes.CrashIff | server/handler.go:60-81 | an action of a connection crashes the server exactly when it is the parse of a crashing block |
| Crashes.NextStepCrashes | server/handler.go:60-81 | the same after every run of the whole system |
| Crashes.CutPacketCrashes | server/handler.go:23-81 | of the prefixes of a packet with records that fits the buffer, exactly the one of nine bytes crashes the server |
| Crashes.HeaderCrashes | server/handler.go:79-81 | preamble, any length and codec are a crashing block |
| Crashes.ServerCrashes | server/handler.go:16-81 | a block crashes some run of eight steps, by a peer with an empty IMEI, exactly when it is a crashing block |
| Parser.ElementsConserved | parser/parser.go:137-154 | a stage yields the sum of its elements' expansions, and 5 elements cost at least 11 bytes |
| Parser.RecordConserved | parser/parser.go:129-158 | a record yields n1 + n2 + n4 + the expansions of its 8-byte elements, at most 11/5 per byte beyond 38 |
| Parser.RecordsBound | parser/parser.go:87-128 | N records cost 38·N bytes and 5/11 byte for each element |
| Parser.AcceptedBound | server/handler.go:23-60 | 5·E ≤ 11·(L − 15 − 38·N) for every accepted buffer, and 2048 bytes never give more than 53 records |
| Elements.PayloadKept | parser/parser.go:234-917 | for every identifier, two 8-byte payloads decode to the same names, values and normal values exactly when they agree on what the decoder keeps |
| Signals.SignalsRead | parser/parser.go:234-917 | for every payload as one 64-bit number, each decoded element has the table's name, and its bits times its factor plus its offset to two decimals, likewise its normal value; the speed cut at 200 |
| Signals.ByteSlice | parser/parser.go:1456-1462 | masks and shifts of a byte are bits of the 64-bit number |
| Signals.WordSlice | parser/parser.go:250-262 | a pair of bytes is 16 bits of the 64-bit number |
| Elements.NumberRead | parser/parser.go:160-233 | an element of 1, 2 or 4 bytes is its name and the big-endian number of its bytes |
| Elements.OneByteNames | parser/parser.go:165-186 | the nine named ids of 1-byte elements, all others in decimal, and no two names equal |
| Elements.TwoByteNames | parser/parser.go:197-214 | the seven named ids of 2-byte elements, all others in decimal, and no two names equal |
| Elements.RoundNearest | parser/parser.go:1464-1467 | rounding gives a nearest number of hundredths, of two the one farther from zero |
| Elements.ItoaDigits | parser/parser.go:185 | decimal names have digits only and no leading zero |
| Elements.AtoiOfItoa | parser/parser.go:185 | the decimal name reads back as the id |
| Elements.Kept145 | parser/parser.go:247-331 | equal values and normal values exactly for payloads equal but for speeds that are both from 1600 on and have the same normal value |
| Elements.Kept146 | parser/parser.go:332-504 | equal signals exactly for payloads that differ at most in the low nibble of the first byte |
| Elements.Kept147 | parser/parser.go:505-556 | injective |
| Elements.Kept148 | parser/parser.go:557-620 | injective |
| Elements.Kept149 | parser/parser.go:621-694 | injective |
| Elements.Kept150 | parser/parser.go:695-735 | injective |
| Elements.Kept151 | parser/parser.go:736-775 | injective |
| Elements.Kept152 | parser/parser.go:776-818 | injective |
| Elements.Kept153 | parser/parser.go:819-865 | injective |
| Elements.Kept154 | parser/parser.go:866-917 | equal signals exactly for payloads that differ at most in the first two bytes |
| Elements.SpeedKept | parser/parser.go:247-260 | the clamped speed tells raw speeds apart except those from 1600 on |
| Elements.SpeedReportKept | parser/parser.go:247-260 | clamped speed and normal value together tell apart exactly the speeds below 1600 and the steps of the normal value |
| Elements.SpeedNormal | parser/parser.go:257 | the normal value of the unclamped speed is a whole number of hundredths, given by integer division |
| Elements.NormalsFollow | parser/parser.go:332-917 | in all other elements, the normal values tell nothing beyond the signals |
| Elements.SignalKept | parser/parser.go:1464-1467 | rounding to two decimals loses nothing at the resolutions in use |
| Elements.RoundInjective | parser/parser.go:1464-1467 | values at least 0.01 apart stay apart when rounded |
| Elements.NamesExpand | parser/parser.go:234-917 | the number of names is the expansion 10, 22, 5, 6, 8, 4, 4, 4, 4, 3 of 145 to 154, and 1 otherwise |
| Elements.ValuesExpand | parser/parser.go:234-917 | there are as many values as names |
| Elements.ItoaInjective | parser/parser.go:227 | two identifiers have the same decimal name exactly when they are equal |
| Encoder.EncodeIOElements | parser/encoder.go:89-124 | the loop with four buffers and wrapping counters prints the serialisation of the four buckets |
| Encoder.EncodeHead | parser/encoder.go:60-85 | the appended fields are the serialised head |
| Encoder.EncodeCodec8ExtendedAVLData | parser/encoder.go:57-128 | the points are printed as serialised records, in order |
| Encoder.MakeCodec8Packet | parser/encoder.go:41-55 | the packet is the serialisation of a frame |
| Encoder.PartitionPermutes | parser/encoder.go:93-116 | the four buckets together hold exactly the values given, with multiplicity |
| Encoder.BucketOfCat | parser/encoder.go:93-116 | each bucket keeps the order of the values |
| Encoder.StablePartition | parser/encoder.go:89-124 | what is read back is the stable partition by width, and its counts sum to the number of values |
| Encoder.OnlyFourByteStage | parser/encoder.go:28-31 | with 32-bit values only the 4-byte stage is used, in the original order |
| Encoder.RoundTrip | parser/encoder.go:41-128 | with 16-bit counts of values of any width, parsing the packet gives the points sent exactly when there are at most 255 |
| Encoder.RoundTripExact | parser/encoder.go:41-128 | with 32-bit values, parsing the packet gives the points sent exactly when both kinds of counters do not wrap |
| Encoder.ValuesReceived | parser/encoder.go:93-111 | every (id, value) pair arrives, in order, by the id in decimal |
| Encoder.AllReceived | parser/encoder.go:89-124 | for values of any widths, exactly which elements arrive: numbers by stage in order, and the signals of 8-byte values |
| Encoder.StreamIs | parser/utils.go:37-45 | a number is printed most significant byte first, in the width of its type |
| Encoder.PacketBytes | parser/encoder.go:41-55 | preamble, length field, codec, both counts and the four zero checksum bytes of a packet, each at its place |
| Encoder.RecordBytes | parser/encoder.go:60-125 | every field of a point stands at its place in the record, so does the number of IO elements, modulo 65536, and the record ends in two zero bytes |
| Encoder.CoordinateFidelity | parser/encoder.go:67-70 | a coordinate comes back cut to seven decimals exactly when it fits the int32 |
| Encoder.PacketSize | parser/encoder.go:41-55 | 15 bytes plus the points' sizes; 14 more than the length field exactly when that fits 32 bits |
| Encoder.PointsSize32 | parser/encoder.go:57-128 | the points take 38 bytes each and 6 for each 32-bit value |
| Encoder.SmallPacketFits | server/handler.go:23 | a packet of at most 2048 bytes has at most 53 points and no counter wraps |
| Crc.CalculateCRC16 | parser/utils.go:93-110 | the nested loop computes what the bit-serial register holds after all bits |
| Crc.ChecksumContinues | parser/utils.go:96-107 | the fold can be continued from the register after any part of the message |
| Crc.Window | parser/utils.go:97-106 | feeding up to 16 bits one by one is adding them at once and shifting |
| Crc.ShiftInjective | parser/utils.go:100-105 | the shift step is a bijection on 16-bit states |
| Crc.BurstDetected | parser/utils.go:93-110 | messages that differ inside 16 consecutive bits have different checksums |
| Crc.DifferenceDecides | parser/utils.go:93-110 | two messages of one length have the same checksum exactly when the polynomial divides their difference |
| Crc.SeventeenBits | parser/utils.go:93-110 | a change inside 17 consecutive bits, at any position, is missed exactly when it is none or the polynomial's pattern |
| Crc.SeventeenBitsEscape | parser/utils.go:93-110 | every message has, at every position with room for 17 bits, such a change that is missed: 16 is the limit |
| Crc.ZeroResidue | parser/utils.go:93-110 | two appended bytes give checksum 0 exactly when they are its low and high byte |
| Crc.Affine | parser/utils.go:93-110 | the checksum of the sum of three messages of one length is the sum of their checksums |
| Crc.TableStep | parser/utils.go:97-106 | the eight inner steps are one look-up by the low byte of the register and the message byte |
| Crc.TableDriven | parser/utils.go:93-110 | folding one look-up per byte over a message gives the register of the nested loop, from every start value |
| Crc.Remainder | parser/utils.go:96-107 | the register is the remainder of the division by x^16 + x^15 + x^2 + 1, with a quotient |
| Crc.DivisionUnique | parser/utils.go:96-107 | that quotient and remainder are the only ones |
| Crc.ChecksumIsRemainder | parser/utils.go:93-110 | a value is the checksum exactly when it is a remainder of the message after the start value |
| Crc.ChecksumOfInverted | parser/utils.go:93-110 | from two bytes on, the checksum is the remainder of the message with its first 16 bits turned over; below, of the message after 0xFFFF |
| Crc.EmptyChecksum | parser/utils.go:94 | the empty message has checksum 0xFFFF |
| Crc.CheckValue | parser/utils.go:93-110 | the published check value 0x4B37 for the digits 1 to 9 |
| Imei.HexIdentity | parser/utils.go:69-70 | encoding to hexadecimal text and decoding it is the identity |
| Imei.HexText | server/handler.go:51 | the text has two lower-case digits for each byte, the high one first |
| Imei.LengthText | parser/utils.go:64-65 | the length read from hexadecimal text is the big-endian number |
| Imei.DecodeIff | parser/utils.go:60-79 | accepted exactly when the first two bytes are the remaining length; the two failures that can occur |
| Imei.EncodeIff | parser/utils.go:81-91 | 15 bytes get 0, 15 in front; anything else is refused |
| Imei.DecodeEncoded | parser/utils.go:60-91 | decoding an encoded IMEI gives it back |
| Imei.EncodeDecoded | parser/utils.go:60-91 | encoding the IMEI of an accepted 17-byte message reproduces the message |
| Rows.Table.SaveAvlPoints | db/clickhouse/save_points.go:15-70 | the rows of a packet are appended all, in order, or not at all, and which; time and priority as raw numbers |
| Rows.MapLastWins | db/clickhouse/save_points.go:31-41 | the map has exactly the names of the list, each with its last value |
| Rows.StoredElements | db/clickhouse/save_points.go:31-41 | and it is the only such map |
| Rows.StoredColumn | db/clickhouse/save_points.go:31-54 | the element column of every stored row has exactly the names of the point, each with its last value |
| Rows.StoredValues | db/clickhouse/save_points.go:31-41 | the map of a point sent with distinct ids is exactly {decimal(id) → value} |
| Rows.StoredPoint | db/clickhouse/save_points.go:42-55 | end to end, which columns equal what was sent: angle and speed exactly below 32768, coordinates exactly in range, the other numbers always; the element column last-wins, and with distinct ids exactly {decimal(id) → value}; time and priority as raw numbers |
| Session.MoveKeeps | server/handler.go:16-77 | every action of a connection keeps its invariant |
| Session.ApplyKeeps | server/handler.go:16-77 | every step keeps the invariant of all connections over the shared table and raw log |
| Session.RunKeeps | server/handler.go:16-77 | so it holds after every run |
| Session.RowsForCat | db/clickhouse/save_points.go:69 | a batch sent by one connection changes that connection's rows only |
| Session.ParsedImei | parser/parser.go:107-108 | parsed points carry the IMEI they were parsed for |
| Session.Safety | server/handler.go:19-76 | over all interleavings: output bytes, whole stored batches in order, one IMEI, raw rows at most once each, at most one raw save ahead, and at most 53 points per acknowledgement |
| History.OutputExact | server/handler.go:104-115 | after every run, the bytes written are 1, and then 0, 0, 0 and the number of points for each acknowledged packet |
| History.RawLogExact | server/handler.go:50-58 | after every run, a goroutine's raw row is there exactly when the run contains its successful save; a failed save leaves none |
| History.RawSaveEnabled | server/handler.go:50-58 | a goroutine can run at any time after its start, once, and never otherwise |
| History.VerdictsExact | server/handler.go:71-73 | the outcomes kept for a connection's packets are those of its saves in the run, in order |
| Session.BlocksFit | server/handler.go:23 | every block ever written fits the read buffer |
| Session.ImeiStable | server/handler.go:33-47 | the IMEI is set once, by the first block, and never changes |
| Session.RunForward | server/handler.go:21-76 | blocks, batches and output of a connection only grow |
| Session.SimServerKeeps | server/handler.go:60-75 | a handler never crashes on a simulator's packets, and keeps what the simulator relies on |
| Session.ApplyKeepsSims | simulator/connection.go:9-56 | every step of the system keeps the invariant of all simulators and their handlers |
| Session.PacketParsed | simulator/connection.go:34-39 | the padded buffer holding a sendable packet parses to its points |
| Session.EndToEnd | simulator/send_random_points.go:8-37 | for every device, no call fails its check but the first one of a device without a 15-byte IMEI, at most one block is unanswered, and the table holds the rows of the packets sent |
| History.AllStored | simulator/send_random_points.go:8-37 | in every run without a failing save, the table holds every packet a device has sent, between its calls |
| History.SessionExists | simulator/send_random_points.go:8-37 | every device with a 15-byte IMEI can send every list of packets that fit, and have them all stored |
| Session.CallCompletes | simulator/connection.go:33-56 | no deadlock: a waiting call can complete within six steps of its connection alone |
| Session.WaitingMoves | simulator/connection.go:33-56 | every move of a waiting connection but a raw save or a failing read completes the call or brings it closer |
| Session.CallInevitable | simulator/connection.go:33-56 | under every schedule a waiting call has completed once its connection has made six such moves |
| Handler.Endpoint.Read | server/handler.go:23-32 | a read fills a fresh zeroed buffer from the front, or fails when the peer has closed or the connection broke |
| Handler.Serve | server/handler.go:19-77 | the loop makes moves of the session machine only, reads until a read fails or a block is refused, and has that machine's output, rows, raw saves and crash |
| Handler.HandleConnection | server/handler.go:16-77 | the loop and then both deferred calls: the wait group is counted down once, before the connection is closed; the machine ends closed, with its invariant |
| Handler.PerformKeeps | server/handler.go:16-77 | any sequence of moves keeps the invariant |
| Device.Socket.Read | simulator/connection.go:44-45 | a read returns the next bytes, or fails and consumes nothing |
| Device.AuthenticateIMEI | simulator/connection.go:9-31 | only a 15-byte IMEI is sent, and the result is what the reply byte says; these are the machine's two authentication moves |
| Device.SendPoints | simulator/connection.go:33-56 | the packet is written, and the result is what the fourth reply byte says; for packets the machine's client sends, these are its two moves |
| Device.SendRandomPoints | simulator/send_random_points.go:8-37 | one authentication, then packets in order until a call does not succeed; for packets the machine's client sends, these are its moves |
| Lifecycle.ApplyKeeps | server/server.go:61-102 | every step keeps the invariant over listener, quit channel, wait group and handlers |
| Lifecycle.Shutdown | server/server.go:61-102 | the wait group counts exactly the registered handlers not yet done; at most one handler is launched after the listener is closed; `Start` comes back only after `Stop` has closed the quit channel |
| Lifecycle.LateLaunches | server/server.go:77-92 | with the listener closed, exactly the connection in hand can still get a handler |
| Lifecycle.RunTells | server/server.go:61-102 | listening, publishing, closing, quitting, stopping and returning have happened in the state exactly when their steps are in the run |
| Lifecycle.HandlersTell | server/server.go:88-90 | a connection and its handler are as far as their steps in the run |
| Lifecycle.AllComeBack | server/server.go:61-102 | no deadlock: after the quit channel is closed `Start` can come back alone, a waiting `Stop` when the handlers finish, the accept loop alone once the listener is closed |
| Lifecycle.HandlerReturns | server/handler.go:17-18 | a serving handler can always finish by its two last calls |
| Lifecycle.StopGuarantee | server/server.go:94-102 | when the wait returns no handler serves, and none ever will exactly when listening had failed, or the listener is closed and no accepted connection is uncounted |
| Lifecycle.HandlerAhead | server/server.go:61-92 | while the listener is open or can still open, some continuation leads to a serving handler |
| Lifecycle.AnyNumberAfterStop | server/server.go:61-102 | for every number there is a run in which `Stop`, called before the listener was set, has returned and that many handlers serve |
| Lifecycle.ServingAfterStop | server/server.go:77-92 | a run in which a handler serves after `Stop` has returned |
| Lifecycle.DrainedForever | server/server.go:77-102 | with the listener closed and nothing in hand, no handler is ever launched again |
| Lifecycle.DoneBeforeClose | server/handler.go:17-18 | a closed connection was deregistered earlier in the run |

## Left out

- Dates: `convertToDate` formats the timestamp for a time zone; the raw 64-bit timestamp is kept instead.
- Display colours, and the BCM and EMS fault texts in them: per signal a constant or a look-up of the signal's value, so
  they tell nothing more about a payload.
- IEEE 754 rounding: values and coordinates are exact rationals, and `/10` or `/100` is a resolution of 0.1 or 0.01.
  Go's conversion of an out-of-range float to uint32 depends on the platform; it is modelled as truncation to an
  integer and reduction modulo 2^32.
- The priority's name: the byte is kept. Names of unknown priorities are not part of this model.
- The checksum comparison in `ParsePacket` has no effect in the source and is not made. Neither the length field nor
  the total IO count is checked by the code, so no claim is made that they are right.
- Value widths: the source's element type holds a uint32. The printer is modelled over values of all four widths that
  its loop handles, and the statements about 32-bit values say so.
- TCP: a read delivers one written block of at most 2048 bytes; a client reads a whole reply or nothing. Segmentation,
  merging of blocks and failing writes are not modelled; a failing read is a step.
- ClickHouse: preparing, appending and sending a batch succeed or fail by a parameter or a step. NATS publishing,
  logging and protobuf encoding have no modelled effect, except that publishing the last point of no points crashes.
- Rows.Table.SaveAvlPoints: stores the raw timestamp and the priority byte, where the source stores a date text and the
  name of the priority; the functions that make those texts are not part of this model.
- Rows.StoredPoint: likewise for these two columns.
- Device.Socket.Read: does not model a read that returns only part of a reply, because the model of TCP delivers a
  reply in one piece.
- Random point generation, the pause between packets, command lines and mocks.
- Unused helpers: `streamToTime`, `streamToInt32` and `twosComplement`.
- A sign in the text given to `ParseInt`: it cannot occur in hexadecimal output.
- Device.SendPoints: the link to the machine is for packets with points that fit the server's read buffer, as the
  generated ones do; a longer one is read in pieces by the server, which the model of TCP does not have.
- Preallocated results: the source writes points by index into a slice of the announced length; the model appends.
- Split functions: the parser's stage, element and head parts, the printer's head and element parts and the handler's
  loop are methods of their own here; in the source they are parts of one function each.
- Several starts or stops: `Lifecycle` has one `Start` and one `Stop`. A second `Stop` would close a closed channel.
- Comments in the source: the printer's comment on the longitude says 8 bytes and the code writes 4, and its length
  field is one more than the size of the records, which is not the data length of the codec. The model follows the code.
