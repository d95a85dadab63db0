# F2P verified model

F2P forwards TCP and UDP services over a peer-to-peer link. This project models the parts of it whose
correctness is hard to see by reading one function, and proves what they promise for every input, every run
and every interleaving.

`dafny verify dfyconfig.toml` checks the whole project.

## The parts

**The data path.** `Uvarint`, `ZstdFrames` and `Zstd` hold the compressed stream: a writer that cuts each
write into chunks and frames every chunk raw or compressed, and a reader that rebuilds the byte stream through
a leftover buffer. `Config` holds the settings that reach it. `Messages` and `DataPath` put the length-prefixed
handshake and the copy loops on top, with or without compression, and `Connection` puts two ends together. The main
results are `ZstdFrames.CutStream` (any writes, any cut, any reads), `ZstdFrames.WireBound`,
`ZstdFrames.CountersMirror`, `Connection.HandshakeThenBytes` and `Connection.Forward`. The last is a whole forwarded
connection: one stream with an object at each end, request out, response back, then both copy loops interleaved by any
schedule at either end. What arrives at an end is any part, cut at any byte, of the wire the other end comes to write.
Each application is given a prefix of what the other wrote. `Connection.RelayOneWay` drives one direction through from
the near application to the far one and says how much room and how many turns suffice for all of it.

**The dispatcher.** `Dispatch` has the lock-protected object, proved against functions on its state, and two
results about those functions: `Dispatch.ScanChoice` (what a wait returns) and `Dispatch.Conservation` (where
every received message went). `Runs` has what the transition systems share. `Wakeup` interleaves one reader, any number of closers and n waiters over the
one-slot channel: `Wakeup.NoLostWakeupIff` shows that no wake-up is ever lost exactly when n is at most one.

**The session protocol.** `Services` has the two service indexes, request validation, the client's
verification round and the choice of framing, ending in `Services.CompressionAgreement`. `Sessions` is a
transition system of clients, control handlers, monitors and data handlers on both transports over one session
table, with a log as history variable. `Heartbeat` has the ping and pong accounting as traces with times.
`ClientDriver` has the connection manager and the monitor as goroutines over the shared connection fields.

**Hole punching.** `Stun` refines the attribute loop to a declarative grammar of attribute lists, `Nat` classifies the
answers, `Signaling` runs both sides of the exchange over a link that may fail anywhere, and `Punch` has the
shuffled ports and the bounded probe schedule.

## Foreign code and the environment

- A stream is a reliable ordered byte channel. `Zstd.Stream` has the bytes still to arrive and the number of
  bytes it accepts before its writes fail; a read may return any non-empty part of what is there.
- The zstd, protobuf and JSON libraries are values holding a pair of functions. The laws assumed of them are
  the three `Lawful` predicates: decoding undoes encoding, empty bytes are the default protobuf message, and no
  signaling message reaches 4 GiB.
- The password check, the clock, random draws, STUN answers and the moment at which a link fails are
  parameters; the theorems hold for all their values.
- Bytes are integers from 0 to 255; exclusive or is written out bit by bit.

## Where the promises in the source do not hold

- `internal/message/dispatcher.go:11` promises that a close unblocks all waiting goroutines. With two or more
  waiters it does not: `Wakeup.TwoWaitersLose` is a run after which one waiter sleeps until a further close or its own
  cancellation, whatever else happens; `Wakeup.NoLostWakeupIff` is the exact condition.
- The cleanup at `internal/server/handlers_control.go:85` compares control streams, which are nil for every
  QUIC session. `Sessions.QuicSuccessorUnlisted` is a run in which the end of one QUIC session removes the
  entry of its running successor, `Sessions.CleanupIff` the exact condition.
- The comment on `ttl_ms` in `proto/messages.proto` has 0 stand for 30 seconds, and the dispatcher gives it one.
  `Dispatch.TtlDocumentedIff` has the failing message, the one that an empty body stands for, and the exact condition:
  a second or more. Every message that `SendWithTTL` stamps meets it (`DataPath.DataStream.SendWithTTL`), so it takes
  an empty or a foreign message to see the difference.

## Model

| member | source | states |
|---|---|---|
| Uvarint.RoundTrip | internal/compress/zstd.go:70-88 | reading a variable-length integer undoes writing it, in front of any bytes, for every 64-bit value |
| Uvarint.EncodeShape | internal/compress/zstd.go:70-75 | the format: seven bits a byte, least significant first, the high bit on all but the last, none superfluous |
| Uvarint.DecodeFits | internal/compress/zstd.go:85-88 | on any bytes, nothing that takes more than 64 bits is accepted |
| Uvarint.CutIsTruncated | internal/compress/zstd.go:85-88 | an integer cut anywhere before its last byte reads as truncated |
| Uvarint.DecodeConsumes | internal/compress/zstd.go:77-88 | on any bytes, what a successful read leaves is a proper suffix of its input |
| Uvarint.Put | internal/compress/zstd.go:70-75 | the loop emits exactly the encoding |
| Uvarint.UvarintLen | internal/compress/zstd.go:136-143 | the computed length is the length of the real encoding |
| Uvarint.LengthMonotone | internal/compress/zstd.go:136-143 | a larger number never encodes shorter |
| ZstdFrames.ChunksSplit | internal/compress/zstd.go:147-152 | chunking loses, adds and reorders nothing and makes no empty or oversized chunk |
| ZstdFrames.FrameCost | internal/compress/zstd.go:159-179 | a compressed frame, header included, is strictly shorter than its chunk and of at least the minimum size, and is used whenever it is; a raw one is the chunk plus its header |
| ZstdFrames.WireBound | internal/compress/zstd.go:145-199 | an N-byte write puts at most N + ceil(N/C)(1 + uvarintLen(C)) bytes on the wire |
| ZstdFrames.ParseWritten | internal/compress/zstd.go:98-126 | the reader's frame parser undoes the writer's framing in front of any bytes |
| ZstdFrames.ParseAny | internal/compress/zstd.go:98-126 | of any flag byte only the lowest bit counts, and it alone decides whether the payload is decompressed |
| ZstdFrames.OversizeRefused | internal/compress/zstd.go:106-108 | a frame announcing more than 2^30 bytes is refused before any of them is read |
| ZstdFrames.ParseCut | internal/compress/zstd.go:98-112 | a frame cut anywhere before its last byte is not accepted, and the error is a plain end of file exactly when the cut lies before it or right behind its flag or its length |
| ZstdFrames.ReadTakesPrefix | internal/compress/zstd.go:94-134 | on any wire, a non-empty read returns a non-empty prefix of what remains and leaves the rest, and fails exactly when nothing remains; it takes all it may of the leftovers, or of the next frame when there are none |
| ZstdFrames.CutPayload | internal/compress/zstd.go:94-134 | a wire cut at any byte carries exactly the chunks of its complete frames |
| ZstdFrames.CutStream | internal/compress/zstd.go:94-199 | for every sequence of writes, every cut and every sequence of non-empty reads: the chunks of the complete frames in order, then an error; with no cut, the whole input |
| ZstdFrames.CountersMirror | internal/compress/zstd.go:122-130 | once the whole wire has been read the reader's four counters are the writer's |
| ZstdFrames.CountersMean | internal/compress/zstd.go:172-193 | frames count the chunks, original bytes the data; stored bytes fall short of it exactly when a frame was compressed |
| Zstd.Stream.ReadUvarint | internal/compress/zstd.go:77-88 | the byte-at-a-time loop decodes, reports end of file or overflow, and consumes what the decoder does |
| Zstd.ZstdDuplex.ReadFrame | internal/compress/zstd.go:98-130 | one frame off the stream and into the counters, or the parser's error with the counters unchanged |
| Zstd.ZstdDuplex.Read | internal/compress/zstd.go:94-134 | the object's read is the value-level reader on leftover buffer, stream and counters |
| Zstd.ZstdDuplex.WriteFrame | internal/compress/zstd.go:181-189 | flag, length and payload go out as one frame, cut where the stream fails |
| Zstd.ZstdDuplex.Write | internal/compress/zstd.go:145-199 | the loop emits the chunks' frames until the stream fails and reports the chunks completely written; the reading half is untouched |
| Zstd.EmitSends | internal/compress/zstd.go:145-199 | a write sends its wire form cut where the stream gives out, succeeds exactly when all fits, and reports exactly the chunks whose frames went out whole |
| Zstd.EmitCounts | internal/compress/zstd.go:172-193 | after any write, failed ones included, the counters are those of the frames that went out whole, plus the attempt alone of a compressed frame that did not |
| Config.LoadZstd | internal/config/config.go:138-192 | each value, or its default when absent, is moved to the nearest of its range, and the minimum size is then always below the chunk size |
| Config.ConfigureZstdParams | internal/compress/zstd.go:47-68 | defaults for what is missing; the minimum stays as it is below the chunk size, and otherwise is one less, but never under 32 |
| Config.StartParams | internal/config/config.go:164-186 | every loaded configuration keeps frames far below the reader's 2^30 limit |
| Messages.ParseSent | internal/message/message.go:40-87 | any part of a sent message and the bytes behind it: received as sent with exactly the rest left over, or not at all |
| Messages.OversizeRefused | internal/message/message.go:72-74 | a message announced longer than 4 MiB is refused, whatever follows |
| DataPath.DataStream.Read | internal/compress/zstd.go:94-134 | plain or compressed, a read takes a non-empty prefix of the pending bytes and returns nothing but an error exactly when there are none; the end may be reported with the last bytes |
| DataPath.DataStream.WriteFull | internal/message/message.go:27-38 | the bytes are on the wire as one write, or cut where the stream failed; success exactly when they fit |
| DataPath.DataStream.SendMessage | internal/message/message.go:40-58 | unmarshallable and oversized messages send nothing; any other goes out as length and body, cut where the stream failed |
| DataPath.DataStream.SendWithTTL | internal/message/message_api.go:72-92 | more than a minute is refused; any other message goes out with 1000 to 60000 milliseconds, the time asked for within that range, 30000 when none was |
| DataPath.DataStream.ReceiveMessage | internal/message/message.go:62-87 | takes exactly one message off the stream and leaves the bytes behind it |
| DataPath.CopyTurn | internal/pipe/pipe.go:43-54 | one turn passes on a prefix of the source's pending bytes, all of them when the source ends, and leaves the destination's reading half and the source's writing half alone |
| DataPath.CopyLoop | internal/pipe/pipe.go:40-56 | what was written is always a prefix of what the source had, and all of it when the loop ended with its source; it fails exactly when the destination is full |
| DataPath.Pump | internal/pipe/pipe.go:11-66 | the two loops on one pair of objects, their turns interleaved by any schedule until either ends: each passes on a prefix of what its source had |
| Connection.HandshakeThenBytes | internal/client/forward.go:57-78 | on a stream cut anywhere, the handshake is received as sent and a prefix of the application bytes follows, or nothing is received; uncut, both arrive whole |
| Connection.ClientEnd | internal/client/forward.go:57-78 | request out, one response in, both directions if and only if it was accepted: the link carries the request and a prefix of the application's bytes, the application gets a prefix of what is behind the response, and only an ended source, a failed write or a schedule of turns that all moved something ends the copying |
| Connection.ServerEnd | internal/server/handlers_control.go:243-270 | one request in, its answer out, both directions if and only if it was granted and the answer went out, with the same account of the copying; what is no request for a named service gets no answer |
| Connection.Forward | internal/server/handlers_data.go:42-72 | both ends on one stream, both directions, any schedules, failures and cuts: each application is given a prefix of what the other wrote, all of it when the loops ended with their sources and nothing was cut; for a request that is not granted nothing but the request is sent and nothing passed on; with ample room and nothing cut the client gets the server's answer, and after a granted request and enough turns each end has come to the end of a source |
| Connection.RelayOneWay | internal/pipe/pipe.go:40-56 | one direction driven through both ends' objects: a prefix always, and everything given room for its worst encoding and enough turns |
| Dispatch.Dispatcher.OnMessage | internal/message/dispatcher.go:81-109 | the reader's critical section is the enqueue function, and the notify slot ends full |
| Dispatch.Dispatcher.OnError | internal/message/dispatcher.go:71-78 | a read error is recorded unless closed, and the notify slot ends full |
| Dispatch.Dispatcher.Close | internal/message/dispatcher.go:157-164 | closing changes nothing but the closed flag, and the notify slot ends full |
| Dispatch.Dispatcher.TakeFrom | internal/message/dispatcher.go:119-135 | the inner loop drops and counts expired heads and takes the next entry |
| Dispatch.Dispatcher.TryWait | internal/message/dispatcher.go:116-146 | one pass of a wait is the scan function on the state |
| Dispatch.ScanChoice | internal/message/dispatcher.go:114-146 | a wait delivers the oldest message of the first requested type that has one not outlived, in nanoseconds; error, close and blocking come only when none has, in that order |
| Dispatch.FreshDelivered | internal/message/dispatcher.go:123-133 | a message is delivered exactly while it is no older than its time to live or than a second |
| Dispatch.ErrorOnlyBeforeClose | internal/message/dispatcher.go:72-75 | over every sequence of operations a read error is reported exactly when one was met before any close, and a close lasts |
| Dispatch.Conservation | internal/message/dispatcher.go:83-136 | after any sequence of operations each type's arrivals split in order into delivered, expired, overflowed and still queued; deliveries are what waits returned, both counters are exact, exactly the expired ones had outlived their time at that moment, an overflowed one has ten newer, at most ten are queued |
| Dispatch.TtlDocumentedIff | internal/message/dispatcher.go:87-90 | a message can be waited for as long as documented exactly when it says a second or more; the empty message is gone after one |
| Wakeup.StepKeeps | internal/message/dispatcher.go:81-171 | with one waiter every step keeps: blocked with a reason to return implies a full slot or a broadcast still owed |
| Wakeup.StrandedStays | internal/message/dispatcher.go:148-171 | a waiter asleep on a closed dispatcher, with nothing in the channel and nobody left to fill it, stays so in every run without another close or its own cancellation |
| Wakeup.TwoWaitersLose | internal/message/dispatcher.go:148-171 | with two or more waiters a run exists in which a close wakes one and leaves another in that state |
| Wakeup.NoLostWakeupIff | internal/message/dispatcher.go:114-171 | no interleaving loses a wake-up if and only if there is at most one waiter, and some interleaving strands a waiter for good if and only if there are two |
| Services.BuildIndexes | internal/server/server.go:60-70 | both maps agree on every name with a scan for the last service of that name |
| Services.ValidateByScan | internal/server/handlers_control.go:197-226 | granted exactly when the last service of the name is enabled, lists the protocol and has no password or the given one; each error code exactly in its case; the compression decision is that service's |
| Services.LastNamedAt | internal/server/server.go:62-64 | the service of a name is found exactly when the name occurs, and it is the occurrence with none behind it |
| Services.AnswerIff | internal/server/handlers_control.go:228-239 | the response says yes exactly when the last service of that name is enabled, lists the protocol and has no password or the one given; a yes carries that service's compression setting, else the server's, a no the code of its case |
| Services.EnabledIsRequested | internal/client/handshake.go:19-33 | every protocol of every enabled service is asked for |
| Services.RequestedIsEnabled | internal/client/handshake.go:19-33 | and nothing else is asked for |
| Services.VerificationAgrees | internal/client/handshake.go:39-110 | whatever is delayed or lost, each response taken answers the request waited for, and each verified name was granted and is cached with the server's decision |
| Services.VerificationCompletes | internal/client/handshake.go:16-37 | when the server says yes to every request and nothing is lost, every request gets verified |
| Services.SlashesIgnored | internal/version/version.go:20-28 | any number of slashes behind a given base protocol make no difference, and one more in front makes none exactly when the base has none there or is nothing but slashes |
| Services.NormalizeShape | internal/version/version.go:20-28 | the default base protocol, and one leading slash for a base that has none at either end |
| Services.FramingAgrees | internal/client/connect.go:309-339 | both ends frame a data stream alike on either transport, for any base protocols that normalise alike |
| Services.FramingOnly | internal/server/handlers_holepunch.go:159-169 | nothing but type bytes 2 and 3 and the two data protocols is taken for a data stream |
| Services.CompressionAgreement | internal/server/handlers_holepunch.go:159-165 | after verification a stream is compressed at both ends exactly when the server's last service of that name says so |
| Sessions.StepKeeps | internal/server/handlers_control.go:17-101 | every step of every goroutine on either transport keeps the invariant on table, handlers, clients and log |
| Sessions.AuthenticatedFirst | internal/server/handlers_holepunch.go:175-245 | in every run, before each installation and each served data stream that peer passed the check, also when a session vanishes before it is replaced |
| Sessions.ListedPeersPassed | internal/server/handlers_control.go:21-78 | the table lists exactly the peers last installed, and all of them passed the check |
| Sessions.InstalledBeforeOpen | internal/client/handshake.go:16-61 | a data stream opened after all enabled services were verified on a control stream is opened after the server installed that very session |
| Sessions.OnlyRemovalRefuses | internal/server/handlers_data.go:20-28 | if such a stream is refused, the peer's entry was removed after that installation and before the refusal |
| Sessions.FinishedNotListed | internal/server/handlers_control.go:80-101 | a session whose monitor has finished is not in the table |
| Sessions.CleanupIff | internal/server/handlers_control.go:81-88 | the end of a monitor removes its own entry and no other peer's, and leaves a successor exactly when the two are not both on QUIC |
| Sessions.QuicSuccessorUnlisted | internal/server/handlers_holepunch.go:213-227 | a run in which the end of a QUIC session unlists its running QUIC successor |
| Sessions.ReplacedUnchecked | internal/server/handlers_control.go:34-58 | a new control stream of a listed peer can replace its session with no further check, and in no other way |
| Sessions.CheckedThenInstalled | internal/server/handlers_control.go:61-78 | an unlisted peer with the right credentials gets its session |
| Sessions.StreamServed | internal/server/handlers_data.go:15-35 | from any state a new client with the right credentials can get to a served data stream for any enabled service of its own |
| Heartbeat.MonitorLoop | internal/server/handlers_control.go:142-192 | over ticks, pongs, other messages, failed pings and endings the loop's variables follow the step function, and it returns at the first event that ends it |
| Heartbeat.MissedIsTrailingRun | internal/server/handlers_control.go:150-185 | over every trace the counter is the trailing run of pong-free ping intervals; closing for missed acks happens exactly when the run reaches two, another ending exactly when something else comes first |
| Heartbeat.ClosesInTime | internal/server/handlers_control.go:139-159 | a closing for missed acks comes between 20 and 30 seconds after the last processed pong |
| Heartbeat.MustClose | internal/server/handlers_control.go:139-159 | it does come: more than 30 seconds after the last pong the session is over, and if nothing else ended it, it was closed for missed acks in that time |
| Heartbeat.MustCloseUnanswered | internal/server/handlers_control.go:139-159 | with no pong at all the session is over after 30 seconds, closed for missed acks exactly then if nothing else ended it |
| Heartbeat.PromptNeverCloses | internal/server/handlers_control.go:150-185 | with every round trip under 20 seconds the server never closes for missed acks |
| Heartbeat.WatchLoop | internal/client/monitor.go:79-113 | the loop gives the stream up exactly when the timer goes off, 25 seconds after the heartbeat that set it |
| Heartbeat.TimesOutIff | internal/client/monitor.go:79-113 | the client has timed out exactly when some silence, the one still going on included, has lasted 25 seconds |
| Heartbeat.DeadServerNoticed | internal/client/monitor.go:87-90 | a server that falls silent is noticed 25 seconds after its last heartbeat |
| Heartbeat.PromptPingsKeepClient | internal/client/monitor.go:79-113 | after its first ping, if every ping takes under 15 seconds, the client has not timed out at any moment before the next ping is overdue |
| ClientDriver.StepKeeps | internal/client/connect.go:30-93 | every step hands the driver's token on, a stop between the monitor's test and its spawn included, with the connection fields in the shape its place in the code needs |
| ClientDriver.OneDriverAlways | internal/client/client.go:237-273 | in every run at most one manager or monitor drives the client, and exactly one until stop or cancellation |
| ClientDriver.TransportAgreement | internal/client/monitor.go:13-27 | while a monitor watches, through any number of reconnects, one control stream is set and data streams go over its transport |
| ClientDriver.ThreeAttempts | internal/client/connect.go:74-88 | a manager that finds its server behind a relay is at its next punch attempt until it has succeeded or failed three times, whatever else happens |
| ClientDriver.FailedIsRetried | internal/client/client.go:249-267 | an attempt that fails anywhere is tried again, unless it was interrupted or refused for good |
| ClientDriver.Reconnects | internal/client/monitor.go:13-27 | until stop or cancellation a lost connection can be replaced by a new one of either transport, with the connection fields to match |
| ClientDriver.ShutdownHandsOver | internal/client/monitor.go:96-100 | so can one whose server shuts down |
| ClientDriver.StopIsFinal | internal/client/client.go:275-316 | once the user has stopped the client its monitor ends without a successor |
| Stun.DerivesIff | internal/holepunch/stun.go:74-103 | every body derives exactly one list: the grammar (attributes laid out as in section 15 of RFC 5389, padding cut short only at the very end, then bytes with which no attribute starts) gives exactly what can be split off one after the other |
| Stun.SplitIff | internal/holepunch/stun.go:77-84 | an attribute can be split off exactly when one starts there |
| Stun.ScanAttributes | internal/holepunch/stun.go:74-108 | the loop returns the list's first decodable XOR-MAPPED-ADDRESS in any position, else its first decodable MAPPED-ADDRESS |
| Stun.ParseResponse | internal/holepunch/stun.go:46-109 | on any byte string: no address when the header is bad, otherwise the address of the list the grammar derives from the body |
| Stun.HeaderIff | internal/holepunch/stun.go:47-71 | the header check passes exactly the success responses with the magic cookie, this transaction id and as many bytes as announced |
| Stun.XorMappedRoundTrip | internal/holepunch/stun.go:111-130 | decoding undoes the encoding of section 15.2 of RFC 5389 |
| Stun.DecodesIff | internal/holepunch/stun.go:111-140 | a value of either attribute decodes exactly when it has eight bytes and family 1 |
| Stun.DecodesTo | internal/holepunch/stun.go:119-142 | to its port and address as they stand, or combined bit by bit with the magic cookie |
| Stun.XorBits | internal/holepunch/stun.go:120-126 | the exclusive or is one bit by bit |
| Stun.MappedRoundTrip | internal/holepunch/stun.go:132-143 | decoding undoes the encoding of section 15.1 of RFC 5389 |
| Stun.LayoutIsSplit | internal/holepunch/stun.go:77-103 | every layout of a body, whatever its padding bytes, has the attributes that are split off it |
| Stun.RecoversAddress | internal/holepunch/stun.go:46-143 | the parser returns an address encoded among arbitrary padded attributes, from either attribute |
| Nat.DetectNAT | internal/holepunch/stun.go:197-288 | the loops compute the classification; the address is the first answer's, and the port the extra socket's exactly for predictable ports |
| Nat.SortedPorts | internal/holepunch/stun.go:242-246 | the ports in ascending order, none lost, none added |
| Nat.UniqueIPs | internal/holepunch/stun.go:290-300 | each address once, none lost, none invented |
| Nat.OrderIrrelevant | internal/holepunch/stun.go:208-284 | the type does not depend on the order of the answers |
| Nat.ConeIff | internal/holepunch/stun.go:211-231 | cone exactly when all ports agree |
| Nat.EasyIff | internal/holepunch/stun.go:233-284 | incrementing exactly when the ports of one address differ by at most 100 and the extra port lies above all of them and less than 100 above one; decrementing likewise below; hard otherwise |
| Nat.MirrorSwaps | internal/holepunch/stun.go:248-284 | mirroring all ports swaps incrementing with decrementing and fixes the other types |
| Nat.MethodIff | internal/holepunch/types.go:62-84 | for all integers the method is symmetric in the two ends, and each pair of types has exactly its method |
| Signaling.ParseFramed | internal/holepunch/signaling.go:21-57 | a message cut anywhere is read back whole, leaving exactly the rest, or not at all |
| Signaling.WriteSignal | internal/holepunch/signaling.go:21-36 | length and payload go out, cut where the stream failed; success exactly when all fits |
| Signaling.ReadSignal | internal/holepunch/signaling.go:39-57 | the parser's message and rest, or an error |
| Signaling.ClientAwait | internal/holepunch/signaling.go:87-119 | the client succeeds exactly on a usable offer followed by a ready signal |
| Signaling.ServerHandler | internal/holepunch/signaling.go:133-219 | it starts a punch only after writing that very offer; otherwise, a failing callback included, it sends no ready signal; with room for both messages and a callback that succeeds it sends both |
| Signaling.DecideIff | internal/holepunch/signaling.go:148-188 | a punch is offered exactly when the client told its NAT, the types have a method and a cone server got its socket; a cone server offers that socket's address, another the one detected at start-up |
| Signaling.RolesMatch | internal/holepunch/punch.go:401-443 | for every pair of integer NAT types with a method each side runs the strategy of its own type, the two are complementary and neither side lacks its socket |
| Signaling.Exchange | internal/client/connect.go:159-182 | whenever the client succeeds both sides hold the same transaction id, non-empty token and method, know each other's NAT record, that of a cone server being its punch socket's, and run complementary strategies; it succeeds whenever there is a method, a socket where needed, and the messages get through |
| Punch.GenerateShuffledPorts | internal/holepunch/punch.go:304-315 | the in-place loop computes the shuffle of 1..65535 for the numbers drawn |
| Punch.ShufflePermutes | internal/holepunch/punch.go:309-313 | every sequence of draws permutes |
| Punch.EachPortOnce | internal/holepunch/punch.go:304-315 | whatever is drawn, each port from 1 to 65535 occurs exactly once |
| Punch.EveryOrderOnce | internal/holepunch/punch.go:309-320 | each order of the ports comes from exactly one sequence of draws |
| Punch.PunchConeToSym | internal/holepunch/punch.go:141-215 | at most 5 times 799 probes, to the ports in list order with no wrap; the peer's packet is noticed exactly if it is there at the end, at most 100 probes late |
| Punch.ConeToSymProbes | internal/holepunch/punch.go:138-215 | a whole punch: at most 3995 probes, pairwise distinct, in range; at least 3000 when nothing stops it |
| Punch.MakePunchPacket | internal/holepunch/types.go:114-122 | 64 bytes that announce the transaction id, the rest zero, and that the parser reads back |
| Punch.ParseIff | internal/holepunch/types.go:124-134 | a packet is accepted with an id exactly when it begins with the magic and that id |

## Left out

- libp2p hosts, DHT, relays, QUIC and TLS set-up, and the token check on a new QUIC connection: foreign libraries.
- The insides of zstd, protobuf, JSON and bcrypt: function pairs with the laws named above.
- DataPath.DataStream.WriteFull: short writes that report no error are not modelled; a stream takes everything or fails, as its contract demands, so the loop takes one turn.
- 64-bit wrap-around of byte and frame counters, and 32-bit `int`.
- The floating-point form of the compression test: the ratio is 1.0, so the model compares integers.
- Half-close, the idle timer and goroutine lifetime in `pipe`: the loops may stop after any number of turns.
- Connection.Forward: what arrives is given beforehand and tied to the other end's wire afterwards; that a byte is read only after it was written is not needed for the result and not part of it.
- UDP datagram boundaries, local listeners and dialling of targets.
- Password prompts and the password cache: easy members.
- `validateProtocols`: an enabled service without protocols opens no data stream in the model.
- Sessions.InstalledBeforeOpen: a denied or unanswered verification ends that client's run, since the code cancels the client; the contents of requests and responses are in `Services`.
- Heartbeat.ClosesInTime: the ticker is taken to be exact; a late select shifts the bounds by the same delay.
- ClientDriver.TransportAgreement: holds until the client is cancelled; the fields left behind after cancellation are not described.
- Nat.DetectNAT: sending the queries is not modelled, and an insertion sort stands for the library's.
- Signaling.Exchange: does not claim that a cone server aims at the client's punch socket; the client advertises its address before it creates that socket (internal/client/connect.go:159-169).
- The punch loops other than cone-to-symmetric, and the predicted port between two easy symmetric NATs, which the code does not clamp.
- Terminal prompts, interactive configuration, command line, logging, backoff and version strings.
