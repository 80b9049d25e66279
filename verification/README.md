# Verification of the TCPSHM message queues

TCPSHM carries messages between two processes over TCP (with a persistent send queue, so that nothing is lost when a
connection breaks or a process dies) or over shared memory. This project models its three stateful parts in Dafny and
proves what they are for:

1. **The ptcp protocol.** `PTCPQueue`, the persistent block queue, and `PTCPConnection`, the send side and the receive
   buffer, are classes over byte arrays, proved against functions on message sequences and on the byte stream. Above
   them stands a two-endpoint state machine: push, send any part, heartbeat, read any part, pop, close, crash, and the
   login handshake, with any number of sessions, old requests and lost responses. Its inductive invariant gives
   exactly-once, in-order delivery in both directions, acceptance of every login the code should accept, framing, and a
   way from every reachable state to full delivery. New objects represent the machine's start, and each operation of the
   class is proved to be a run of the machine, so what the application reads out of the receive buffer is the next
   message the peer pushed. Two further machines stand on
   this one: logins across a change of the server's name, and the echo server.
2. **The shared-memory ring.** Every load and store that the other thread can see is a step of its own; the two threads
   interleave freely; the 32-bit indices wrap any number of times.
3. **The server's connections.** The slots of accepted connections, and the groups of connections that are kept as a
   live prefix and a named prefix by swaps in place.

## Files

| file | content |
|---|---|
| `Words.dfy` | 16- and 32-bit words, the signed comparison of wrapped numbers |
| `MsgHeader.dfy` | byte order of message headers |
| `Wire.dfy` | messages, their images, parsing of a byte stream |
| `Memory.dfy` | copying inside and into arrays |
| `SendQueue.dfy`, `PtcpQueue.dfy` | the send queue as a value; the class over the block array |
| `RecvBuffer.dfy`, `PtcpConn.dfy` | what a receive buffer holds; the class with its parse and send loops |
| `Flows.dfy` | one direction of a session, and what each side knows of it |
| `Protocol.dfy`, `ProtocolSteps.dfy` | the two-endpoint machine, its invariant; every step keeps it |
| `Recovery.dfy`, `Reconnect.dfy` | the theorems about all runs; recovery |
| `Refinement.dfy` | the classes follow the machine |
| `ServerName.dfy`, `ServerNameRuns.dfy` | logins across names; ways to the next login, and runs that lose messages |
| `Handshake.dfy` | `Connect` and `HandleLogin` as they execute |
| `Echo.dfy` | the echo server and its handler |
| `Ring.dfy`, `RingInvariant.dfy`, `RingTheorems.dfy`, `RingProgress.dfy`, `SpscVarQueue.dfy` | the shared-memory ring |
| `ConnectionTable.dfy`, `ServerGroup.dfy`, `Acceptor.dfy` | the server's connection groups and login slots |
| `GroupConnections.dfy` | the connection objects behind a group's entries |

## Hypotheses

The code relies on these; each is a `requires`, or a condition on the steps or events of a machine.

- A payload and its 8-byte header fit into 16 bits (README.md:29). `PtcpQueue.AllocationCoversPayload` shows that the
  allocation covers the payload exactly then.
- `Front` is not called between a successful `Alloc` and its `Push` (`Reserved` is required by `Push`), and `Pop` is
  called only for a message that `Front` has returned.
- Message type 0 is not used by the application (msg_header.h:117).
- The peer runs this protocol. `PTCPConnection.Front` states as `HonestInput` what it needs of its input, and
  `Recovery.PeerIsHonest` proves that the machine always provides it.
- A message leaves the send queue before the local side has popped 2^31 further messages (`MayPop`), and a login request
  is not handled when the server has pushed 2^31 messages since the client counted for it. Within that window every
  32-bit comparison is exact, however often the counters wrap.
- A crash falls between two operations of ptcp; `Push` may also be cut before its last store
  (`PTCPQueue.StampHeader`).
- Both ends have queues of the same size and the same configured byte order. `TcpRecvBufInitSize` and
  `TcpRecvBufMaxSize` are multiples of 8 (ptcp_conn.h:334-336), and twice the maximum fits into 32 bits; then no sum of
  `DoRecv` wraps (`PtcpConn.SizesDoNotWrap`).
- Theorems about all histories across names speak of events that `ServerName.Tolerable` admits. Two kinds are not always
  admitted: a login that makes a server start over and is handled late, and the file of a new name that cannot be opened
  at once. `ServerName.TolerableExactly` proves the condition exact; two of the findings show what happens otherwise.
- The number of blocks of the ring is a power of two, as spsc_varq.h:14 requires.

## Findings

- With a receive buffer of initial size 0, which the static assertions allow, `DoRecv` asks for no bytes and the
  connection never receives anything (`PtcpConn.NoReceiveDeadlock`, an equivalence).
- A server that has started over for a client under a new name, and has pushed messages before the client's login was
  completed, forgets them when the client logs in again (`ServerNameRuns.ForgottenByReset`, an equivalence, and
  `ServerNameRuns.PushedMessageForgotten`, a run).
- A login that carries no name or an old one, handled after a later one has been completed, makes the server start over
  behind the client's back. The client's next login is refused if it has popped anything or had anything acknowledged;
  otherwise it is accepted, and whatever the server had pushed is lost all the same. Only if nothing had been exchanged
  does this do no harm (`ServerNameRuns.LateResetVerdict`, two equivalences;
  `ServerNameRuns.LateResetRefuses` and `ServerNameRuns.LateResetForgets`, a run for each case).
- `Connect` stores the new name before it opens the file of that name. If the file cannot be opened and holds a queue
  from earlier days, the next `Connect` does not reset it: its numbers go into the request, and a server that has just
  started over may accept them and drop messages nobody has popped (`ServerNameRuns.StaleFile`, an equivalence, and
  `ServerNameRuns.StaleFileLoses`, a run).
- If the echo server dies between `Pop` and `Push`, the next echo stands where the lost one was expected
  (`Echo.LostBetweenPopAndPush`, and `Echo.EchoLost`, a run for any two different messages).
- The shared-memory ring may refuse a message of more than half its blocks although it is empty
  (`RingTheorems.HalfIsTight`, for rings of two blocks or more), and never a smaller one
  (`RingTheorems.HalfAlwaysFits`); `RingTheorems.CapacityExact` is the equivalence.
- The second test for null in `Front` of the ring, after a rewind, never succeeds (`RingTheorems.NullMeansEmpty`).
- `CheckAckInQueue` decides membership in the send window if and only if the window is shorter than 2^31
  (`Words.CheckAckDecidesMembership`); the windows of all reachable queues are.

## Where comments and code differ

- "return false only if no pending data to send" (ptcp_conn.h:197): `SendPending` also returns false when it finds the
  connection closed or closes it. While the connection stays open the comment is right, and that is all `SendHB` needs.
- "if caller dont call Pop() later, it will get the same msg again" (tcpshm_conn.h:68): not if the same call of `Front`
  receives the header of a message that is too large; it then returns null, and the connection is closed. A later call
  returns the message again.

## Model

| member | source | states |
|---|---|---|
| Words.DiffExact | ptcp_queue.h:55 | the signed difference of two wrapped numbers is their true difference if and only if that fits in an `int` |
| Words.CheckAckDecidesMembership | tcpshm_server.h:341-344 | the two sign tests decide membership in the window on the 32-bit circle, for every acknowledgement, if and only if the window is shorter than 2^31 |
| Words.CheckAckExact | tcpshm_server.h:341-344 | for unbounded numbers less than 2^31 apart the test is membership in the integer interval |
| MsgHeader.ConvertTwice | msg_header.h:122-128 | converting a header twice, in either configuration on either host, gives it back |
| MsgHeader.Bswap32Twice | msg_header.h:93-98 | swapping the bytes of a word twice gives it back |
| MsgHeader.WireFormIsHostIndependent | msg_header.h:43-55 | the bytes of a converted header depend on the configured byte order alone, not on the host |
| MsgHeader.ConvertReadsWire | msg_header.h:122-128 | loading a header from the wire and converting it reads the fields in the configured order |
| MsgHeader.LoadStoreHeader | msg_header.h:112-121 | a header stored in either byte order is loaded back unchanged |
| MsgHeader.HeaderBytes | msg_header.h:112-128 | a header is stored as two bytes of size, two of type and four of acknowledgement, least significant byte first exactly on a little-endian machine |
| MsgHeader.HeaderValues | msg_header.h:112-128 | eight bytes are read as a header of size, type and acknowledgement in this order, each the number its bytes stand for in the machine's byte order |
| Wire.ParseAppend | ptcp_conn.h:148-165 | parsing continues where a fully parsed prefix ends: how a stream is cut at message boundaries does not matter |
| Wire.ParseSplit | ptcp_conn.h:148-165 | every stream is its parsed part, which has the same messages, followed by a rest without a whole message |
| Wire.ItemsOfPrefix | ptcp_conn.h:148-165 | any prefix of the images of messages parses to exactly the messages complete in it |
| Wire.AcksOfPrefixOfImages | ptcp_conn.h:149-153 | the acknowledgements seen in a prefix are those of the headers complete in it, one incomplete message included |
| Wire.ImagesAreHonest | ptcp_conn.h:153-161 | images of legal messages never show a header of size 0 or a heartbeat with a body |
| Wire.BlocksExact | ptcp_queue.h:16-17 | the blocks of a message hold it, one block fewer would not, and the receiver steps over as many |
| SendQueue.AckIsExact | ptcp_queue.h:54-66 | an acknowledgement less than 2^31 from the queue's base drops exactly the messages before that unbounded number and ignores an older one |
| SendQueue.AckAllIsExact | ptcp_queue.h:54-66 | a series of acknowledgements that never goes back acts as its last one |
| SendQueue.AckKeepsSent | ptcp_queue.h:90-95 | acknowledging messages that have been sent never moves the read position past the send position |
| SendQueue.TooNewExact | ptcp_queue.h:78 | a stamp less than 2^31 from the acknowledgement is called newer if and only if it is |
| PtcpQueue.PTCPQueue.Alloc | ptcp_queue.h:15-29 | room is found if and only if the blocks in use and the new ones fit together; compaction, even with the send index inside a message, changes neither the messages nor the unsent bytes |
| PtcpQueue.PTCPQueue.Compact | ptcp_queue.h:21-24 | moving the live blocks to the front keeps the queue's meaning |
| PtcpQueue.PTCPQueue.Fill | tcpshm_conn.h:46-49 | writing type and payload into allocated memory makes them those of the message to be pushed |
| PtcpQueue.PTCPQueue.StampHeader | ptcp_queue.h:31-35 | everything `Push` does before its last store leaves the queue as it was; the stamped block is the message's wire image |
| PtcpQueue.PTCPQueue.Push | ptcp_queue.h:31-37 | appends exactly the allocated message, stamped with the current acknowledgement |
| PtcpQueue.PTCPQueue.Sendable | ptcp_queue.h:39-42 | the bytes offered are the images of the queued messages behind the send position |
| PtcpQueue.PTCPQueue.Sendout | ptcp_queue.h:44-46 | advances the send position by whole blocks and nothing else |
| PtcpQueue.PTCPQueue.Ack | ptcp_queue.h:54-66 | drops exactly the messages the wrapped number acknowledges, ignores an old one, and resets the indices of an emptied queue |
| PtcpQueue.PTCPQueue.ReleaseTo | ptcp_queue.h:58-62 | the loop that stops at an equal number ends after exactly as many messages as the signed difference says |
| PtcpQueue.PTCPQueue.LoginAck | ptcp_queue.h:48-51 | the acknowledged messages are dropped and everything else is to be sent again |
| PtcpQueue.PTCPQueue.CountPop | ptcp_conn.h:177 | the wrapped counter follows the unbounded number of pops |
| PtcpQueue.PTCPQueue.SanityCheckAndGetSeq | ptcp_queue.h:72-86 | a file is accepted if and only if the signed comparison calls no stamp newer than the queue's acknowledgement, which for stamps less than 2^31 away means that none is; the blocks always add up, and the reported window is the true one |
| PtcpQueue.PTCPQueue.Reset | ptcp_conn.h:86-88 | the queue is empty with all counters 0, whatever the blocks hold |
| PtcpQueue.AllocationCoversPayload | ptcp_queue.h:16-17 | with the size added on 16 bits, the allocated blocks cover header and payload if and only if their sum does not wrap |
| RecvBuffer.LayoutMove | ptcp_conn.h:303-322 | bytes that have been moved, with new bytes behind them, still hold the same messages, waiting and incomplete |
| RecvBuffer.LayoutAdvance | ptcp_conn.h:159-164 | a whole message behind the waiting ones joins them without touching the buffer |
| RecvBuffer.ConsumeApps | ptcp_conn.h:133-143 | passing over the first waiting message consumes one application message, or none if it is a heartbeat |
| RecvBuffer.AppsOfStream | ptcp_conn.h:128-178 | the application messages of the whole stream are those consumed followed by those waiting |
| PtcpConn.NoReceiveDeadlock | ptcp_conn.h:264-273 | as long as the message in front is incomplete and would fit in the largest buffer, bytes are asked for, in every layout, if and only if the buffer's size is not 0 |
| PtcpConn.SizesDoNotWrap | ptcp_conn.h:267-273 | with twice the maximum size below 2^32 no sum or product of sizes and indices in `DoRecv` wraps |
| PtcpConn.RequestIsLargest | ptcp_conn.h:264-273 | what `DoRecv` asks for is as much as fits besides the live bytes, in a larger buffer only when less than half is free, and never more than 64 KiB beyond the free space behind them |
| PtcpConn.NewSize | ptcp_conn.h:311-312 | a replacement buffer holds all the data, is at least twice as large or the maximum, never above it, and a multiple of 8 |
| PtcpConn.NewSizeIsLeast | ptcp_conn.h:311-312 | no smaller multiple of 8 holds the data and is at least twice the old size |
| PtcpConn.PTCPConnection.HungryAsks | ptcp_conn.h:264-273 | the same for the object: with nothing waiting and a message under way that fits in the largest buffer, `DoRecv` asks for bytes |
| PtcpConn.PTCPConnection.DoRecv | ptcp_conn.h:262-325 | the live bytes afterwards are the old ones followed by exactly the bytes read, in all three branches; the indices keep their distances and stay inside the buffer; when bytes are asked for, an error, the end of the stream or a timeout closes the connection, and an empty socket before the timeout does not |
| PtcpConn.PTCPConnection.ShiftDown | ptcp_conn.h:304-307 | the memmove branch puts old and new bytes together at the front, in order |
| PtcpConn.PTCPConnection.Expand | ptcp_conn.h:308-319 | the branch with a new buffer does the same, and the new size is legal |
| PtcpConn.PTCPConnection.Read | ptcp_conn.h:273-302 | as many bytes as wanted and there are; an empty socket closes the connection only after the timeout, every other failure at once, and nothing else does |
| PtcpConn.PTCPConnection.NextHeader | ptcp_conn.h:149-152 | each header is converted exactly once, by the test against the old write index alone, and yields the sender's fields |
| PtcpConn.PTCPConnection.ParseOne | ptcp_conn.h:149-164 | one round acknowledges one header, then either ends the loop or passes one whole message on; the rest shrinks |
| PtcpConn.PTCPConnection.ParseReceived | ptcp_conn.h:148-165 | the loop terminates, acknowledges every header newly complete, and leaves an incomplete rest; it closes the connection if and only if a message is too large |
| PtcpConn.PTCPConnection.SkipHeartbeats | ptcp_conn.h:133-143 | heartbeats in front are passed over and no application message is; one is returned at once if and only if it has not been returned since the last pop |
| PtcpConn.PTCPConnection.HeadInPlace | ptcp_conn.h:133-143 | with no heartbeat in front, something stands at the read index if and only if an application message waits, and it is that message, header and body |
| PtcpConn.PTCPConnection.Front | ptcp_conn.h:128-171 | however the stream is cut into reads, the messages consumed and waiting are those of the whole stream without heartbeats; a message is returned if and only if one is complete, and it stands in the buffer in host byte order; one not returned since the last pop is returned without a read; otherwise what the kernel has is read, an error, the end of the stream, a timeout or too large a message closes the connection, and an empty socket before the timeout does not |
| PtcpConn.PTCPConnection.Pop | ptcp_conn.h:173-178 | exactly the message `Front` has shown is consumed and counted |
| PtcpConn.PTCPConnection.SendPending | ptcp_conn.h:197-223 | what goes out is exactly what the kernel takes of the unsent bytes before the first send that does not succeed; a failed send before everything is out closes the connection, and so does a stop inside a block; while it stays open whole blocks are sent, and the answer is true if and only if something was pending and no send failed |
| PtcpConn.PTCPConnection.SendLoop | ptcp_conn.h:204-216 | the bytes emitted are the sum of the sends that succeed before the first that does not, as far as there are bytes; it fails if and only if bytes are left then and that send failed or the rest is not whole blocks |
| PtcpConn.PTCPConnection.SendHB | ptcp_conn.h:180-195 | before the interval is over nothing is sent; then the unsent bytes go out, or, only if there are none, a heartbeat; a failed send or a part of one closes the connection, a full socket does not |
| PtcpConn.PTCPConnection.StampHeartbeat | ptcp_conn.h:67-72 | the heartbeat's bytes are the wire image of a bare header with the current acknowledgement |
| PtcpConn.PTCPConnection.Push | ptcp_conn.h:118-121 | the allocated message is appended and exactly what the kernel takes of the then unsent bytes goes out |
| PtcpConn.PTCPConnection.Open | ptcp_conn.h:99-112 | the receive side starts over, and what is sent starts with the first byte of the first unacknowledged message |
| PtcpConn.PTCPConnection.TryCloseFd | ptcp_conn.h:229-237 | a call gives the descriptor back if and only if the connection is closed and still holds one; afterwards it holds none, so the next call does not |
| Flows.FrontAcks | ptcp_conn.h:148-153 | the acknowledgements of the headers one read makes visible are all honest and act on the queue as the last one, compared as unbounded numbers |
| Flows.AckIsRecent | ptcp_queue.h:55 | no header still to be processed carries an acknowledgement older than the signed comparison can tell |
| Flows.SentCovers | ptcp_queue.h:56-57 | every message the peer can have received completely lies before the queue's send position |
| Flows.NextContent | ptcp_conn.h:167-169 | the next message to pop, as parsed from the received bytes, is the next one pushed |
| Flows.SendKeepsPlan | ptcp_conn.h:197-223 | sending any number of unsent bytes continues the images of the session's messages |
| Flows.BeatTxOK | ptcp_conn.h:184-194 | a whole heartbeat stands between two messages, and the unsent bytes of session and queue still agree |
| ProtocolSteps.StepKeepsInv | ptcp_conn.h:99-223 | the invariant of the two endpoints is inductive: every step of the machine keeps it |
| ProtocolSteps.StepPush | ptcp_queue.h:31-37 | pushing keeps the invariant, connected or not |
| ProtocolSteps.StepSend | ptcp_conn.h:197-223 | sending any part, whole blocks or cut short, keeps the invariant |
| ProtocolSteps.StepBeat | ptcp_conn.h:180-195 | a heartbeat, whole or cut short, keeps the invariant |
| ProtocolSteps.StepFront | ptcp_conn.h:128-171 | reading any part keeps the invariant |
| ProtocolSteps.StepPop | ptcp_conn.h:173-178 | popping keeps the invariant |
| ProtocolSteps.StepCrash | ptcp_conn.h:74-82 | losing everything but the queue file keeps the invariant |
| ProtocolSteps.StepHandle | tcpshm_server.h:306-329 | handling a login, old or new, answered or not, keeps the invariant |
| ProtocolSteps.StepFinish | tcpshm_client.h:168-172 | completing a login keeps the invariant |
| ProtocolSteps.PopAll | ptcp_conn.h:173-178 | what is popped is the content of the next message the peer pushed |
| Recovery.ExactlyOnceInOrder | README.md:3 | in every run each side has popped what the other pushed, from the first message on, in order, none lost or doubled, and every other pushed message is in the sender's queue |
| Recovery.LoginIsAccepted | tcpshm_server.h:306-320 | in every reachable state the client's login is accepted by a server that is not connected: both window tests succeed, on wrapped numbers, whatever was lost before |
| Recovery.NeverCorrupt | ptcp_queue.h:72-86 | in every reachable state no stamp in a queue is newer than its acknowledgement, and each is recent enough for the comparison to be right, so the file is never found corrupt |
| Recovery.Framing | ptcp_conn.h:180-223 | in every session the bytes sent are a prefix of the images of consecutive pushed messages with heartbeats only between them |
| Recovery.PeerIsHonest | ptcp_queue.h:56-57 | whatever a reachable peer has sent and however it is read, headers are legal and every acknowledgement is for messages completely sent before |
| Recovery.ResumesAtExpected | ptcp_queue.h:48-51 | after the server has accepted the awaited login, its first byte to send is the first of the message the client expects next, and all later messages follow |
| Recovery.ClientResumesAtExpected | tcpshm_client.h:168-172 | the same for the client when the response arrives |
| Recovery.RunKeepsInv | README.md:3 | the invariant holds after every run |
| Reconnect.OneReconnectDeliversAll | README.md:3 | from every reachable state there is a run without a push, crashes and a new login included, after which each side has popped everything the other pushed |
| Reconnect.Rejoin | tcpshm_client.h:37-174 | from every reachable state both sides can crash and then be joined by one login |
| Reconnect.AwaitedLoginJoins | tcpshm_server.h:306-329 | whenever the client waits and the server is not connected, handling the request and completing the login joins both with nothing lost |
| Refinement.RunFront | ptcp_conn.h:128-171 | `Front` of the object, with any reads from the peer's stream, is a run of the machine; it returns a message if and only if one is complete and this call has not met a header that is too large, which none is when the buffer may grow to the largest message; the buffer then shows the next message the peer pushed |
| Refinement.RunPop | ptcp_conn.h:173-178 | `Pop` of the object is the machine's pop of that message |
| Refinement.RunSend | ptcp_conn.h:197-223 | `SendPending`, whatever the kernel takes, is a run of the machine, and the bytes emitted are those added to the stream |
| Refinement.RunHeartbeat | ptcp_conn.h:180-195 | the same for `SendHB` |
| Refinement.RunPush | tcpshm_conn.h:43-56 | allocating, writing and pushing fails if and only if the blocks are used up, and otherwise the machine pushes exactly that content and sends what was emitted |
| Refinement.PushReserved | ptcp_conn.h:118-121 | `Push` of the object is the machine's push followed by a send |
| Refinement.RunClose | ptcp_conn.h:244-246 | closing the object closes the machine's connection |
| Refinement.Restart | ptcp_conn.h:74-82 | a new object on the same queue file represents the machine's side after a crash |
| Refinement.RunSendLogin | tcpshm_client.h:63-70 | the file is found intact and the request carries the numbers of the machine's request |
| Refinement.CheckLogin | tcpshm_server.h:299-311 | the tests made on the queue file accept a request if and only if the machine does |
| Refinement.RunHandleLogin | tcpshm_server.h:306-329 | the server's side of a login opens the object as the machine opens its connection |
| Refinement.RunFinishLogin | tcpshm_client.h:168-172 | the client's side of the same |
| Refinement.OtherStays | ptcp_conn.h:61-64 | whatever one side does, the object of the other side goes on representing the other side |
| Refinement.NewEndpoint | ptcp_conn.h:63-82 | a new queue and a new connection object represent their side of the machine's start |
| Refinement.StartOver | ptcp_conn.h:86-112 | `Reset` and `Open`, whatever the file held, represent a side that starts over |
| Refinement.NeverOversized | ptcp_conn.h:148-165 | if the buffer may grow to the largest message pushed, no header is ever too large |
| Refinement.InputIsHonest | ptcp_queue.h:56-57 | the input hypothesis of `Front` holds for every read from the peer's stream |
| ServerName.NextKeepsOK | tcpshm_server.h:293-305 | every tolerable event, late resets with nothing to forget included, keeps: the pair of queues under the stored name is reachable in the protocol, and so is what a reset server has begun |
| ServerName.TolerableExactly | tcpshm_server.h:293-296 | an event leaves the two ends in agreement on what was delivered and what is still to come if and only if it is tolerable: no reset that comes late forgets anything, and no file left over from earlier days stays in use |
| ServerName.ResetLoginIsAccepted | tcpshm_server.h:293-312 | a server that starts over accepts the login that made it do so |
| ServerName.IntactSinceReset | README.md:11 | after every history of tolerable events, across all changes of name, delivery is exactly-once and in order since the ends last started over together, and a server that started over alone still holds all it has pushed |
| ServerName.ResetAgrees | tcpshm_client.h:155-172 | after a login both ends complete, either both have started over with all counters 0 or both have gone on, depending on the stored name alone |
| ServerName.NextLoginResets | tcpshm_server.h:293-305 | with differing names, whenever the client waits for an unhandled request and the server is not connected to it, that login succeeds and joins both ends on empty queues, whatever became of earlier logins and responses |
| ServerName.NextLoginContinues | tcpshm_server.h:297-305 | with equal names, whenever the client waits and the server is not connected to it, that login succeeds and no history is lost |
| ServerNameRuns.ReconnectResets | tcpshm_client.h:37-174 | from every reached state with differing names there is a way to both ends joined on empty queues |
| ServerNameRuns.ReconnectContinues | tcpshm_client.h:37-174 | from every reached state with equal names there is a way to both ends joined with nothing lost |
| ServerNameRuns.ForgottenByReset | tcpshm_server.h:294-296 | a server that keeps its name forgets pushed messages if and only if it handles another login that carries the old name after having pushed |
| ServerNameRuns.PushedMessageForgotten | tcpshm_server.h:294-296 | a run in which this happens |
| ServerNameRuns.LateResetVerdict | tcpshm_server.h:293-311 | a server that starts over behind a client's back accepts its next login if and only if the client has popped nothing and nothing of it was acknowledged; its queue is empty either way, and the two ends still agree if and only if nothing had been exchanged |
| ServerNameRuns.LateResetRefuses | tcpshm_server.h:306-320 | a run in which the client, after a delivered message, is refused |
| ServerNameRuns.LateResetForgets | tcpshm_server.h:293-311 | a run in which the client is accepted and a message of the server, pushed and not popped, is gone |
| ServerNameRuns.StaleFile | tcpshm_client.h:158-167 | a queue left over in the file of a new name is accepted by the reset server if and only if its base is 0 and its pops do not exceed the server's pushes, and then that many messages are dropped undelivered |
| ServerNameRuns.StaleFileLoses | tcpshm_client.h:158-167 | a run in which a file is left over, cannot be opened at once, and a message is lost |
| Handshake.Client.Ask | tcpshm_client.h:37-127 | when `Connect` gets as far as sending a request, and what the request carries |
| Handshake.Client.Complete | tcpshm_client.h:129-174 | which responses open the connection, which name is stored, which queue is opened or reset, and which acknowledgements would lead the release loop out of the queue |
| Handshake.Server.HandleLogin | tcpshm_server.h:278-335 | which requests are accepted, what the response says, and what becomes of the queue file in every case |
| Handshake.CheckedCanAck | tcpshm_server.h:310-329 | an acknowledgement that has passed the window test is for a pushed message, so the loop of `Ack` ends |
| Handshake.SaneExact | ptcp_queue.h:72-86 | for stamps less than 2^31 away a file is taken as intact if and only if no stamp is newer than its acknowledgement |
| Handshake.RunAsk | tcpshm_client.h:37-127 | a request that gets out is the machine's |
| Handshake.RunHandle | tcpshm_server.h:278-335 | the server, handling any request of the client, the latest, an older or an overtaken one, continues or starts over exactly as the machine does, and accepts exactly what it accepts |
| Handshake.RunComplete | tcpshm_client.h:129-174 | the client continues or starts over exactly as the machine does, whatever the file of a new name holds and whether or not it can be opened, and no response in the machine leads out of its queue |
| Handshake.NewPair | tcpshm_client.h:21-28 | new client and server objects represent the machine's initial state |
| Handshake.ServerStartsOver | tcpshm_server.h:294-329 | after `Reset` and `Open`, whatever the file held, the server's connection object represents the server of the new session |
| Handshake.ClientStartsOver | tcpshm_client.h:155-172 | the same for the client that completes such a login |
| Echo.EchoIsPrefix | test/echo_client.cpp:143-152 | what comes back to the client is what it has sent, from the first message on and in order, over any disconnects and crashes outside the handler |
| Echo.OnClientMsg | test/echo_server.cpp:164-173 | the handler on the connection object is the machine's echo of that very message if there is room for its copy, and otherwise leaves it unpopped |
| Echo.OutcomeKeepsStep | test/echo_server.cpp:164-173 | every event keeps: what the server has pushed is what it has popped |
| Echo.LostBetweenPopAndPush | test/echo_server.cpp:169-172 | after a crash between pop and push, whatever happens up to the next echo, new logins included, the server's echoes are still those of the client's messages if and only if the next message equals the lost one |
| Echo.EchoLost | test/echo_server.cpp:169-172 | for any two different messages, a run with such a crash, a new login, and the second echo in the place of the first |
| RingTheorems.StepConsistent | spsc_varq.h:15-72 | every load and store of either thread keeps the ring's invariant |
| RingTheorems.FirstInFirstOut | spsc_varq.h:45-72 | under every interleaving what is popped is what was pushed, in order, and the message the consumer holds is the oldest unpopped one, intact, whatever the producer does meanwhile |
| RingTheorems.NullMeansEmpty | spsc_varq.h:45-66 | `Front` answers null if and only if nothing published is left when it loads the index; its second null, after a rewind, is unreachable |
| RingTheorems.Ownership | spsc_varq.h:15-72 | the blocks the producer may write and those the consumer may read are disjoint at every step, no message straddles the end of the array, and the blocks allocated hold the message where one fewer would not |
| RingTheorems.IndicesInOrder | spsc_varq.h:18-35 | the cached read index, the read index, the published and the private write index stand in this order within one lap, and there is at most one rewind between two pushes |
| RingTheorems.DrainedDecision | spsc_varq.h:15-29 | on a drained ring `Alloc` refuses if and only if the message, the blocks it would skip and those already skipped exceed the ring |
| RingTheorems.HalfAlwaysFits | spsc_varq.h:15-36 | a drained ring never refuses a message of at most half its blocks, at any index, even behind an abandoned rewind |
| RingTheorems.HalfIsTight | spsc_varq.h:15-36 | in a ring of two blocks or more every message of more than half the blocks is refused in some reachable empty state |
| RingTheorems.CapacityExact | spsc_varq.h:15-36 | a ring can be empty and refuse a message if and only if the message needs more than half its blocks; the one exception is a message of one block in a ring of one block, which is never refused |
| RingProgress.AllocDecision | spsc_varq.h:15-29 | on any ring `Alloc` refuses if and only if the blocks not yet freed, those it would skip and those of the message exceed the ring, whatever the cached index says |
| RingProgress.FillWrites | spsc_varq.h:33-36 | every reserved block can be written, and that changes this block alone |
| RingProgress.ConsumerKeepsReserved | spsc_varq.h:45-72 | nothing the consumer does changes a reserved block |
| RingProgress.PushPublishes | spsc_varq.h:38-43 | `Push` publishes exactly the reserved blocks as they have been filled |
| RingProgress.PopRemoves | spsc_varq.h:45-72 | unless everything published has been popped, `Front` and `Pop` remove the next message, all of it, and free its blocks and those skipped before it |
| RingInvariant.RoomIsExact | spsc_varq.h:21-25 | the comparison with a possibly negative 32-bit bound is the comparison of the unbounded indices |
| Ring.LegalCountFacts | spsc_varq.h:13-14 | every legal number of blocks divides 2^32, so wrapped indices fall on the right blocks |
| Ring.BlocksCover | spsc_varq.h:17 | the blocks of 64 bytes counted for a size hold it, and one fewer would not |
| SpscVarQueue.SPSCVarQueue.AllocWhole | spsc_varq.h:15-36 | `Alloc` run without interruption decides as the machine does, and the contiguous blocks it grants hold header and payload where one fewer would not |
| SpscVarQueue.SPSCVarQueue.Execute | spsc_varq.h:15-72 | each access on the real variables is the machine's step |
| SpscVarQueue.SPSCVarQueue.Interleave | spsc_varq.h:15-72 | executing any interleaving of the two threads on the real variables pops a prefix of what was pushed |
| ConnectionTable.History | tcpshm_server.h:87-164 | after every history of logins, sweeps, closings and stops the group is valid: live prefix, named prefix, distinct names, a permutation of the pool |
| ConnectionTable.NextKeepsValid | tcpshm_server.h:236-335 | each of these events keeps the group valid |
| ConnectionTable.LoginReply | tcpshm_server.h:261-339 | every reply as an equivalence: an empty name is invalid, a live name is logged on already, without an unused connection or one of that name the group is full; otherwise the first test that fails decides, the file, then the windows, then the response, and only if none fails the connection is logged on |
| ConnectionTable.LoginEffect | tcpshm_server.h:261-339 | one connection bears the name afterwards, even if the login fails; it goes live with its descriptor if and only if the login succeeds; every other connection is what it was, in its place or in the one swapped |
| ConnectionTable.OpensClosedConnection | ptcp_conn.h:99 | a login opens only a connection without a descriptor, as `Open` demands |
| GroupConnections.FoundIsClosed | tcpshm_server.h:278-329 | if the table's entries are true of the connection objects, the object a login opens is closed and has given its descriptor back, as `Open` demands |
| GroupConnections.OpenFound | tcpshm_server.h:323-329 | opening that object makes the group's new entry true of it, and leaves the others true |
| GroupConnections.CloseFound | ptcp_conn.h:255-260 | a connection that closes itself leaves every entry of the group true, its own updated |
| GroupConnections.SweepFound | tcpshm_server.h:149-163 | the sweep over the objects, by `TryCloseFd`, is the table's sweep |
| GroupConnections.StopFound | tcpshm_server.h:192-218 | releasing every object makes the stopped group's entries true |
| GroupConnections.StartMirrors | tcpshm_server.h:22-40 | new objects stand behind a new group |
| ConnectionTable.SweepReapsAll | tcpshm_server.h:134-163 | after a sweep exactly the open connections are live |
| ConnectionTable.SweepKeepsOpen | tcpshm_server.h:134-163 | no open connection loses its descriptor or its name in a sweep |
| ConnectionTable.SweepIsExact | tcpshm_server.h:134-163 | a closed connection loses its descriptor in a sweep, and nothing else changes in any |
| ConnectionTable.StopForgets | tcpshm_server.h:192-218 | after stopping every connection is nameless, closed and without a descriptor, and none is live |
| ServerGroup.ConnectionGroup.HandleLogin | tcpshm_server.h:261-339 | the search and the swap in place do what the table says, with the same reply |
| ServerGroup.ConnectionGroup.PollControl | tcpshm_server.h:149-163 | the sweep in place is the table's |
| ServerGroup.ConnectionGroup.StopAll | tcpshm_server.h:192-218 | every connection is released, nameless and without a descriptor |
| ServerGroup.ConnectionGroup.Execute | tcpshm_server.h:87-339 | every event, a connection closing itself included, changes the array of connections in place as it changes the table |
| Acceptor.DescriptorsConserved | tcpshm_server.h:87-132 | every descriptor in a slot is afterwards waiting still, taken over by a connection, or closed, and only one of these |
| Acceptor.LeavingExact | tcpshm_server.h:87-132 | exactly the descriptors for which a login succeeds are taken over, and exactly the rejected ones are closed |
| Acceptor.Slots.Poll | tcpshm_server.h:87-132 | a connection is accepted if and only if a slot is free, into a free slot; afterwards a slot holds what it held if nothing was found there, and is free otherwise; exactly the descriptors that logged in are taken over and exactly the rejected ones closed, and every descriptor is accounted for, as often as it was there; the index of a free slot is right again |
| Acceptor.PollConserves | tcpshm_server.h:87-132 | that account of all descriptors, for one accept and one visit to every slot |

## Left out

- Shared-memory mode of a ptcp connection (no queue, heartbeats only) and `TcpShmConnection`'s dispatch between the two
  transports; `PushMore` is `PTCPQueue.Push` alone.
- Sockets, `accept`, `mmap`, file names and `errno`: the outcome of each system call is an argument (`ReadResult`,
  `SendResult`, `Fortune`, `Found`, flags), restricted only as the kernel is.
- Time beyond three things: the heartbeat interval, the receive timeout, and that a read or send resets it.
- The C++ memory model: the loads and stores of the ring interleave sequentially consistently; the fences justify that.
- The unsynchronised reading of a server group by polling threads while the control thread swaps entries
  (tcpshm_server.h:170-174); the groups and slots are single-threaded.
- A crash inside `Ack`, inside the `memmove` of `Alloc`, or inside the handling of a login.
- Messages larger than `TcpRecvBufMaxSize` in the two-endpoint machine; the class closes the connection on them.
- A send that accepts 0 bytes; the model's kernel takes at least one byte or says why not.
- `user_data`, callbacks, error texts and close reasons; the rejection of a new connection by `OnNewConnection`.
- `Endian` for 64-bit, signed and floating-point values.
- ConnectionTable.Login: one flag stands for each test of a login; what decides the window test is in `Handshake` and
  `Refinement`.
- Handshake.Client.Complete: from `OutOfQueue` on nothing is modelled; there the code would read beyond its messages.
  `Handshake.RunComplete` shows that a server that runs this protocol never leads there.
- Reconnect.OneReconnectDeliversAll: requires that no message still to be sent will be older than 2^31 pops when all is
  delivered.
