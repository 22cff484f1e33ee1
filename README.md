# Jazer core, modelled in Dafny

Jazer is a small Java TCP messaging library. This project models its sequential
bookkeeping and proves properties of it. The modelled parts are:

- **Broadcast streams.**
  - `VirtualStream` (module `VirtualStreams`) is one FIFO queue, a receiver list and a closed flag.
  - `PacketVirtualStream` (module `PacketStreams`) keeps one queue and one receiver list per integer tag. Each is created on first use of its tag.
  - Handing a value to the receivers through a worker pool becomes the returned list of `Notification(receiver, value)`.
  - A `take()` that would block on an empty queue returns `Blocked`.
- **Packets** (module `Packets`).
  - `SPacket` is the outbound builder; its fluent setters reassign the payload.
  - `RPacket` is the immutable inbound packet.
  - String payloads are UTF-8 (module `Utf8`, section 3 of RFC 3629). Decoding follows Java's decoder. It replaces each maximal ill-formed subpart with U+FFFD, except that a three-byte unit encoding a surrogate (ED A0..BF followed by a continuation byte) becomes a single U+FFFD.
  - `Utf8.DecodeEncode` proves the round trip.
- **Connection state machines.**
  - `Session` (module `Sessions`) is a client or server-side connection with a status.
  - `SessionServer` (module `SessionServers`) holds a listening socket and a CLOSED / OPENED / DESTROYED status machine. It listens to its own status stream and emits the sessions it accepts.
  - Socket construction, binding and `accept` are oracle parameters. The accept thread is a `Listener` state. The clock is a `now` parameter.
- **Worker pools**: both revisions of `ThreadPool` (modules `ThreadPools` and `LegacyThreadPools`).
  - A pool is a list of `Slave` objects, each with at most one task.
  - The static pool counter is a `PoolCounter` object passed to the constructors.
  - The threads themselves are not modelled.
- **Logging** (module `Logging`):
  - `StringUtils.center`, both overloads;
  - the `disabledOutPut` list that silences the [OUT] channel of `log` but never `err`.

Module `Common` holds the shared definitions:
- `Option`;
- `Outcome`, a returned value or an unchecked exception that escapes the call;
- the port range that `Socket` and `ServerSocket` accept;
- list removal of the first occurrence, as `ArrayList.remove(Object)` and `BlockingQueue.remove(Object)` do;
- the first free slot;
- Java's 32-bit `int` increment;
- decimal rendering of a count.

Where the documented behaviour and the code disagree, the model follows the code:
- `Session.connect` has no guard against a DESTROYED session.
- `VirtualStream.close` is not idempotent. A second call emits a second terminal value.
- `SessionServer.onChanged` enters its destroy branch on the field `status`, not on the value received.
- `ThreadPool.freeSlave` answers true for an idle slave even when that slave is not in the list.
- `SessionServer.destroy` is not idempotent. Every call emits CLOSED then DESTROYED again, even on a server already DESTROYED.

## Model

| member | source | states |
|---|---|---|
| `Common.RemoveFirst` | src/main/java/fr/jazer/session/stream/VirtualStream.java:52-62 | removing an element from a list shortens it by one exactly when the element occurs, and otherwise leaves the list as it was |
| `Common.RemoveFirstSplit` | src/main/java/fr/jazer/session/stream/VirtualStream.java:58-62 | only the first occurrence is removed; the elements before and after it keep their order |
| `Common.RemoveFirstMultiset` | src/main/java/fr/jazer/session/stream/VirtualStream.java:58-62 | the removal takes exactly one copy of the element out of the list's contents, and nothing else |
| `Common.RemoveFirstDistinct` | src/main/java/fr/jazer/thread_manager/ThreadPool.java:98-105 | removing a slave from a list without duplicates leaves a list without duplicates |
| `Common.FirstNone` | src/main/java/fr/jazer/thread_manager/ThreadPool.java:66-73 | the first free slot in list order: every slot before it is busy, and there is none exactly when all slots are busy |
| `Common.Int32Increment` | src/main/java/fr/jazer/thread_manager/ThreadPool.java:46-47 | the static counter's `++` is one more modulo 2^32, plain successor below the largest int |
| `Common.NatToString` | src/main/java/fr/jazer/thread_manager/ThreadPool.java:74 | the size appended to "Slave " is written in decimal digits whose value is the size, with no leading zero |
| `VirtualStreams.VirtualStream.constructor` | src/main/java/fr/jazer/session/stream/VirtualStream.java:11-19 | a new stream is open, with an empty queue and no receivers |
| `VirtualStreams.VirtualStream.EmitValue` | src/main/java/fr/jazer/session/stream/VirtualStream.java:21-28 | the value goes at the tail of the queue, and every registered receiver is notified of it once, in list order |
| `VirtualStreams.VirtualStream.SendToReceivers` | src/main/java/fr/jazer/session/stream/VirtualStream.java:30-34 | exactly one notification per receiver, in list order |
| `VirtualStreams.VirtualStream.ReadASlash` | src/main/java/fr/jazer/session/stream/VirtualStream.java:36-44 | a closed stream answers null and keeps its queue, even though values remain queued; an open one takes the head (FIFO) or blocks on an empty queue |
| `VirtualStreams.VirtualStream.AddReceiver` | src/main/java/fr/jazer/session/stream/VirtualStream.java:46-50 | the receiver is appended |
| `VirtualStreams.VirtualStream.RemoveReceiver` | src/main/java/fr/jazer/session/stream/VirtualStream.java:52-56 | only the first registration is removed; the other receivers keep their order |
| `VirtualStreams.VirtualStream.Slash` | src/main/java/fr/jazer/session/stream/VirtualStream.java:58-62 | answers whether the value was queued, and one occurrence leaves the queue |
| `VirtualStreams.VirtualStream.HasNext` | src/main/java/fr/jazer/session/stream/VirtualStream.java:64-68 | true exactly when the queue is not empty |
| `VirtualStreams.VirtualStream.Close` | src/main/java/fr/jazer/session/stream/VirtualStream.java:70-73 | emits the terminal value (queue and receivers), then the stream is closed; nothing guards a second call |
| `VirtualStreams.VirtualStream.IsClosed` | src/main/java/fr/jazer/session/stream/VirtualStream.java:75-77 | answers the closed flag |
| `PacketStreams.PacketVirtualStream.constructor` | src/main/java/fr/jazer/session/flux/PacketVirtualStream.java:9-20 | a new stream is open and has no tag queues and no receiver lists |
| `PacketStreams.PacketVirtualStream.EmitValue` | src/main/java/fr/jazer/session/flux/PacketVirtualStream.java:22-32 | the tag's queue is created if missing and gets the value at its tail; every other tag's queue is unchanged; the tag's receivers are notified |
| `PacketStreams.PacketVirtualStream.SendToReceivers` | src/main/java/fr/jazer/session/flux/PacketVirtualStream.java:34-39 | one notification per receiver of the value's tag, in list order; none when the tag has no receiver list |
| `PacketStreams.PacketVirtualStream.ReadASlash` | src/main/java/fr/jazer/session/flux/PacketVirtualStream.java:41-54 | null when closed, with no queue created; otherwise the tag's queue is created if missing and its head is taken (FIFO per tag), or the call blocks on an empty queue |
| `PacketStreams.PacketVirtualStream.AddReceiver` | src/main/java/fr/jazer/session/flux/PacketVirtualStream.java:56-62 | the tag's list is created if missing and gets the receiver appended; the other tags' lists are unchanged |
| `PacketStreams.PacketVirtualStream.RemoveReceiver` | src/main/java/fr/jazer/session/flux/PacketVirtualStream.java:64-68 | every tag keeps its list, minus the first registration of the receiver |
| `PacketStreams.PacketVirtualStream.Slash` | src/main/java/fr/jazer/session/flux/PacketVirtualStream.java:70-74 | the value's tag queue must exist; one occurrence leaves it, and the answer says whether there was one |
| `PacketStreams.PacketVirtualStream.HasNext` | src/main/java/fr/jazer/session/flux/PacketVirtualStream.java:76-80 | the tag queue must exist; true exactly when it is not empty |
| `PacketStreams.PacketVirtualStream.Close` | src/main/java/fr/jazer/session/flux/PacketVirtualStream.java:82-92 | closed, and the terminal value put once at the tail of every queue that exists then; no queue is created |
| `PacketStreams.PacketVirtualStream.IsClosed` | src/main/java/fr/jazer/session/flux/PacketVirtualStream.java:94-96 | answers the closed flag |
| `Utf8.EncodeChar` | src/main/java/fr/jazer/session/SPacket.java:30-33 | one to four bytes per character, one byte exactly for ASCII |
| `Utf8.Encode` | src/main/java/fr/jazer/session/SPacket.java:30-33 | the encoding of a text is between one and four bytes per character |
| `Utf8.DecodeStep` | src/main/java/fr/jazer/session/RPacket.java:26-28 | each decoding step consumes between one and four bytes, never more than remain |
| `Utf8.Decode` | src/main/java/fr/jazer/session/RPacket.java:26-28 | decoding never yields more characters than there are bytes |
| `Utf8.DecodeStepEncodeChar` | src/main/java/fr/jazer/session/RPacket.java:26-28 | decoding reads back a character's encoding as that character, consuming exactly its bytes |
| `Utf8.DecodeEncode` | src/main/java/fr/jazer/session/RPacket.java:26-28 | round trip: decoding the UTF-8 encoding of a text gives the text |
| `Utf8.DecodeStepSound` | src/main/java/fr/jazer/session/RPacket.java:26-28 | every character the decoder yields other than U+FFFD is the decoding of exactly the bytes it consumed |
| `Utf8.DecodeEncodedSurrogate` | src/main/java/fr/jazer/session/RPacket.java:26-28 | an encoded surrogate, ED A0..BF followed by a continuation byte, reads as one U+FFFD for its three bytes, and decoding resumes after them |
| `Utf8.DecodeLoneContinuation` | src/main/java/fr/jazer/session/RPacket.java:26-28 | a continuation byte with no lead byte reads as one U+FFFD and consumes only itself |
| `Utf8.EncodeInjective` | src/main/java/fr/jazer/session/SPacket.java:30-33 | distinct texts have distinct encodings |
| `Packets.SPacket.constructor` | src/main/java/fr/jazer/session/SPacket.java:12-14 | the packet has the given tag and a null payload |
| `Packets.SPacket.WithData` | src/main/java/fr/jazer/session/SPacket.java:16-19 | the packet keeps the given tag and payload unchanged |
| `Packets.SPacket.GetData` | src/main/java/fr/jazer/session/SPacket.java:21-23 | answers the current payload |
| `Packets.SPacket.GetTag` | src/main/java/fr/jazer/session/SPacket.java:35-38 | answers the tag |
| `Packets.SPacket.WriteBytes` | src/main/java/fr/jazer/session/SPacket.java:25-28 | the payload is replaced and the same packet is returned; the tag is untouched |
| `Packets.SPacket.WriteString` | src/main/java/fr/jazer/session/SPacket.java:30-33 | the payload becomes the UTF-8 encoding of the text and the same packet is returned; the tag is untouched |
| `Packets.RPacket.ReadString` | src/main/java/fr/jazer/session/RPacket.java:26-28 | the payload decoded as UTF-8: a payload that encodes a text reads back as that text |
| `Packets.RPacketKeepsFields` | src/main/java/fr/jazer/session/RPacket.java:12-24 | the getters return exactly what the constructor was given |
| `Packets.ReadWrittenString` | src/main/java/fr/jazer/session/RPacket.java:26-28 | a text written into an outbound packet reads back from an inbound packet with that payload |
| `Sessions.Session.Client` | src/main/java/fr/jazer/session/Session.java:23-25 | a new session is client-side, disconnected and without socket |
| `Sessions.Session.FromSocket` | src/main/java/fr/jazer/session/Session.java:27-32 | the session starts connected exactly when its socket is non-null and connected |
| `Sessions.Session.IsConnected` | src/main/java/fr/jazer/session/Session.java:61-63 | holds exactly when the status is CONNECTED |
| `Sessions.Session.IntegrityCheck` | src/main/java/fr/jazer/session/Session.java:65-68 | every socket passes the handshake check |
| `Sessions.Session.SetStatus` | src/main/java/fr/jazer/session/Session.java:70-75 | answers true exactly when the status differs from the current one; the status is then the given one |
| `Sessions.Session.Connect` | src/main/java/fr/jazer/session/Session.java:40-86 | a server-side or connected session, a certificate configuration or an unreachable peer leave socket and status unchanged, and the status is returned. A port outside 0..65535 makes `new Socket` throw IllegalArgumentException, which escapes the call with nothing changed. Otherwise the new socket is stored, the status is CONNECTED and is returned |
| `Sessions.Session.Reconnect` | src/main/java/fr/jazer/session/Session.java:34-38 | without a socket the status is returned unchanged. A socket that never connected has no address, so NullPointerException escapes with nothing changed. Otherwise it connects again to the same address and port, with the outcomes of `Connect` |
| `SessionServers.SessionServer.constructor` | src/main/java/fr/jazer/session/SessionServer.java:24-49 | a new server is closed, without socket or listener, with a 20000 ms timeout, and is the only receiver of its status stream |
| `SessionServers.SessionServer.IsOpened` | src/main/java/fr/jazer/session/SessionServer.java:55-59 | holds exactly when the status is OPENED |
| `SessionServers.SessionServer.SetStatus` | src/main/java/fr/jazer/session/SessionServer.java:92-97 | the status is emitted on the status stream and then assigned, so the stream's queue records every status set, in order |
| `SessionServers.SessionServer.OpenSession` | src/main/java/fr/jazer/session/SessionServer.java:61-90 | an opened or destroyed server, or a socket that does not bind, changes nothing and the status is returned. Without a certificate configuration, a port outside 0..65535 makes `new ServerSocket` throw IllegalArgumentException, which escapes with nothing changed. A bound socket is stored, the server becomes OPENED, and the new status is emitted and returned |
| `SessionServers.SessionServer.Destroy` | src/main/java/fr/jazer/session/SessionServer.java:99-102 | exactly two transitions, CLOSED then DESTROYED, both emitted to every status receiver |
| `SessionServers.SessionServer.SetSessionTimeOut` | src/main/java/fr/jazer/session/SessionServer.java:104-106 | the timeout is replaced |
| `SessionServers.SessionServer.AddStatusListener` | src/main/java/fr/jazer/session/SessionServer.java:113-115 | the listener is appended to the status stream's receivers |
| `SessionServers.SessionServer.RemoveStatusListener` | src/main/java/fr/jazer/session/SessionServer.java:117-119 | the first registration of the listener leaves the status stream's receivers |
| `SessionServers.SessionServer.NextStatus` | src/main/java/fr/jazer/session/SessionServer.java:121-123 | reads the status stream: null once closed, else its head or a blocked call |
| `SessionServers.SessionServer.SlashStatus` | src/main/java/fr/jazer/session/SessionServer.java:125-127 | one occurrence of the status leaves the status queue |
| `SessionServers.SessionServer.AddSessionListener` | src/main/java/fr/jazer/session/SessionServer.java:134-136 | the listener is appended to the sessions stream's receivers |
| `SessionServers.SessionServer.RemoveSessionListener` | src/main/java/fr/jazer/session/SessionServer.java:138-140 | the first registration of the listener leaves the sessions stream's receivers |
| `SessionServers.SessionServer.NextSession` | src/main/java/fr/jazer/session/SessionServer.java:142-144 | reads the sessions stream: null once closed, else its head or a blocked call |
| `SessionServers.SessionServer.SlashSession` | src/main/java/fr/jazer/session/SessionServer.java:146-148 | one occurrence of the session leaves the sessions queue |
| `SessionServers.SessionServer.OnChanged` | src/main/java/fr/jazer/session/SessionServer.java:151-196 | CLOSED: a null socket or listener throws, otherwise the socket is closed, `lastOpen` is the current time and the watchdog is armed. OPENED: rejected while a listener is alive, otherwise a listener starts. Otherwise, if the field status is DESTROYED, each stream not yet closed is closed (the status stream after dropping the server from its receivers, the sessions stream with a new client session as terminal). The streams change in no other case |
| `SessionServers.SessionServer.TimeoutCheck` | src/main/java/fr/jazer/session/SessionServer.java:163-173 | corrected watchdog: DESTROYED is set only when the server is still closed and `lastOpen` equals the watchdog's snapshot; otherwise nothing changes |
| `SessionServers.SessionServer.TimeoutCheckAsWritten` | src/main/java/fr/jazer/session/SessionServer.java:163-173 | the watchdog as written: DESTROYED is set whenever the status is not DESTROYED and `lastOpen` equals the snapshot |
| `SessionServers.ReopenedServerDestroyedAsWritten` | src/main/java/fr/jazer/session/SessionServer.java:161-172 | a trace on one server: open, listen, accept fails and the server closes at time t, which arms the watchdog, then reopen and listen. The server is OPENED with a live listener, and the watchdog as written, waking with snapshot t, destroys it |
| `SessionServers.ReopenedServerSpared` | src/main/java/fr/jazer/session/SessionServer.java:161-172 | the same trace with the corrected watchdog: the server stays OPENED with its listener running |
| `SessionServers.SessionServer.OnAcceptFailure` | src/main/java/fr/jazer/session/SessionServer.java:209-216 | an accept error forces CLOSED only while the server is opened and is logged only otherwise; the listener ends |
| `SessionServers.SessionServer.AcceptLoop` | src/main/java/fr/jazer/session/SessionServer.java:199-217 | while opened, each accepted socket becomes a new server-side session emitted in order on the sessions stream, and its receivers are notified of each. An opened server then becomes CLOSED when `accept` fails; a server not opened accepts nothing |
| `ThreadPools.PoolCounter.constructor` | src/main/java/fr/jazer/thread_manager/ThreadPool.java:23 | the static pool counter starts at 0 |
| `ThreadPools.Slave.constructor` | src/main/java/fr/jazer/thread_manager/ThreadPool.java:142-164 | a new slave carries its name and live time, serves, and has no task |
| `ThreadPools.Slave.WorkOn` | src/main/java/fr/jazer/thread_manager/ThreadPool.java:171-179 | a free slave takes the task; a task already held is never overwritten |
| `ThreadPools.Slave.IsFree` | src/main/java/fr/jazer/thread_manager/ThreadPool.java:184-186 | holds exactly when the slave has no task |
| `ThreadPools.Slave.IsWorking` | src/main/java/fr/jazer/thread_manager/ThreadPool.java:191-193 | is the negation of `IsFree` |
| `ThreadPools.ThreadPool.constructor` | src/main/java/fr/jazer/thread_manager/ThreadPool.java:43-48 | an empty pool numbered by the previous counter value; the counter moves on by one |
| `ThreadPools.ThreadPool.WithDefaultLiveTime` | src/main/java/fr/jazer/thread_manager/ThreadPool.java:53-55 | the same with the default live time of 20000 ms (line 19) |
| `ThreadPools.ThreadPool.Exe` | src/main/java/fr/jazer/thread_manager/ThreadPool.java:65-79 | the first free slave in list order takes the task, and the list and every other slave's task do not change; when all are busy, exactly one new slave named "Slave " followed by the old size is appended and takes the task; no slave occurs twice |
| `ThreadPools.ThreadPool.FreeSlave` | src/main/java/fr/jazer/thread_manager/ThreadPool.java:98-106 | a slave holding a task is refused and the list is unchanged; otherwise its first occurrence is removed and the answer is true |
| `LegacyThreadPools.PoolCounter.constructor` | src/main/java/fr/jazer/ThreadManager/ThreadPool.java:9 | the static pool counter starts at 0 |
| `LegacyThreadPools.Slave.constructor` | src/main/java/fr/jazer/ThreadManager/ThreadPool.java:56-77 | a new slave carries its name, serves, and has no task |
| `LegacyThreadPools.Slave.WorkOn` | src/main/java/fr/jazer/ThreadManager/ThreadPool.java:79-87 | a free slave takes the task; a task already held is never overwritten |
| `LegacyThreadPools.Slave.IsFree` | src/main/java/fr/jazer/ThreadManager/ThreadPool.java:89-91 | holds exactly when the slave has no task |
| `LegacyThreadPools.Slave.IsWorking` | src/main/java/fr/jazer/ThreadManager/ThreadPool.java:93-95 | is the negation of `IsFree` |
| `LegacyThreadPools.ThreadPool.constructor` | src/main/java/fr/jazer/ThreadManager/ThreadPool.java:17-21 | an empty pool numbered by the previous counter value; the counter moves on by one |
| `LegacyThreadPools.ThreadPool.Exe` | src/main/java/fr/jazer/ThreadManager/ThreadPool.java:23-37 | the first free slave in list order takes the task, and the list and every other slave's task do not change; when all are busy, exactly one new slave named "Slave " followed by the old size is appended and takes the task |
| `LegacyThreadPools.ThreadPool.FreeSlave` | src/main/java/fr/jazer/ThreadManager/ThreadPool.java:39-47 | removes only a slave without task, and answers whether it did |
| `Logging.CenteredUnique` | src/main/java/fr/jazer/logger/Logger.java:101-114 | the centred form of a text is unique: the result of `center` is determined by its properties |
| `Logging.CenteredPaddingBalanced` | src/main/java/fr/jazer/logger/Logger.java:106-112 | the right padding equals the left padding or exceeds it by one |
| `Logging.Center` | src/main/java/fr/jazer/logger/Logger.java:101-114 | a null text, or one at least `size` long, is returned unchanged; otherwise the result has length `size`, starts with (size - length) / 2 pad characters followed by the text, and is padded up to `size` |
| `Logging.CenterWithSpaces` | src/main/java/fr/jazer/logger/Logger.java:97-99 | the same with a space as pad |
| `Logging.Logger.constructor` | src/main/java/fr/jazer/logger/Logger.java:32-35 | the logger keeps its class name and whether it has an object |
| `Logging.Logger.Log` | src/main/java/fr/jazer/logger/Logger.java:42-53 | nothing is written exactly when the class name is in the silencing list; a written line shows the class name centred in 30 characters |
| `Logging.Logger.Err` | src/main/java/fr/jazer/logger/Logger.java:60-69 | a line is always written, whatever the silencing list; it shows the class name centred in 30 characters |

## Left out

- Threads and timing. The worker pools inside the streams, the server and each `Session` (Session.java:20, a legacy `ThreadPool`) are not modelled. Creating a session's pool also advances the legacy static pool counter, and the model does not show that. Also out are `ThreadPool.destroy` (interrupting every slave), the slave run loop (sleep, ask to be released, run the task, clear it), `Thread.sleep`, `interrupt` and `System.currentTimeMillis`; the time is a parameter. Receiver dispatch is a returned list of notifications, not concurrent execution, and the order in which the pool runs them is not modelled.
- Blocking: `take()` on an empty queue waits for another thread. The model returns `Blocked` and leaves the queue's contents as they are. `PacketVirtualStream` may first have created the tag's empty queue.
- Iteration order of `HashMap`: `PacketVirtualStream.close` and `removeReceiver` touch every tag. The model states the result per tag, and the order does not matter there.
- `VirtualFlux`: its only logic is a sleep/interrupt wake-up between threads.
- Sockets and TLS. `new Socket`, `new ServerSocket`, `accept` and the keystore-based server socket factory are oracles:
  - `reachable` in `Session.Connect`;
  - `bound` in `SessionServer.OpenSession`, which covers both an IOException and a failing certificate configuration;
  - the list `incoming` in `SessionServer.AcceptLoop`.
- The certificate configuration classes: they only carry values. A client certificate configuration is the flag `secured`, because `constructSocket` always throws for one.
- Field getters (`getSocket`, `getServer`, `getStatusFlux`, `getSessionsFlux`): the model's fields are visible directly.
- `Slave.release` and `Slave.getName`: `release` is never called, and the name is the slave's `name` field.
- Console output outside the logger: `System.out.println("Closing !")` in `PacketVirtualStream.close` (PacketVirtualStream.java:84) and the `System.err` line for a caught IOException in `Session.connect` (Session.java:51).
- Logger output: the date format, the `String.format` layout and `System.out`. A written line is represented by its class-name column only. `loggerOfStatic` and `loggerOfObject` are the `Logger` constructor applied to the class's simple or canonical name.
- Payload arrays. `SPacket.withData`, `writeBytes` and the `RPacket` constructor keep the caller's `byte[]`, and `getData` hands the same array back, so a later write to that array by either side shows in the packet. The model stores the payload as a value, so this aliasing is not modelled.
- Unchecked exceptions of socket construction other than a port out of range, such as a refusal by a security manager, are not modelled. An unresolvable host is an `UnknownHostException`, an IOException that `connect` catches; it is covered by `reachable` being false. A null host means loopback and is not an error. For a certificate configuration, `SessionServer.OpenSession` leaves the port check to the `bound` oracle, because the keystore factory is not part of this model.
- The wire framing of packets (length and tag encoding, reading and writing on the socket) is not part of this model.
- Status enums: `ConnexionStatus`, `ConnectionStatus` and `SessionType` hold only equality tests. They are datatypes here.
- Java strings are UTF-16, while the model's strings are sequences of Unicode scalar values.
- Logging.Center: compares `size` with the number of characters, while the source compares with the number of UTF-16 units. The two differ for text outside the Basic Multilingual Plane.
- Packets.SPacket.WriteString: does not model a Java string holding a lone surrogate, which `getBytes` encodes as `?`, or a null text, which makes the source throw.
- Packets.RPacket.ReadString: the contract pins the result down only for a payload that is the encoding of some text; for any payload it bounds the result by the payload's length. Properties of the replacement of ill-formed bytes are `Utf8.DecodeStepSound`, `Utf8.DecodeEncodedSurrogate` and `Utf8.DecodeLoneContinuation`. No lemma characterises every ill-formed input. A null payload makes the source throw, so it is excluded by the precondition.
- SessionServers.SessionServer.OnChanged: the CLOSED branch hands the watchdog to the server's worker pool. Here the watchdog is the separate method `TimeoutCheck`, called with the `lastOpen` value the watchdog read when it started.
- SessionServers.SessionServer.AcceptLoop: the status cannot change during a sequential loop, so the loop ends only when `accept` fails. A failure after another thread has set the status is `OnAcceptFailure` called on its own.

## Findings

| source | as written | input that shows it | evidently intended | confidence | as-written member | corrected member |
|---|---|---|---|---|---|---|
| src/main/java/fr/jazer/session/SessionServer.java:161-172 | The watchdog destroys the server when the status is not DESTROYED and `lastOpen` still equals its snapshot. `lastOpen` is written only when the server closes; `openSession` does not write it. | The server closes at time t, so `lastOpen` = t and the watchdog's snapshot is t. The server is then reopened before `sessionTimeOut` elapses. When the watchdog wakes, the status is OPENED and `lastOpen` = t = snapshot, so the running server is destroyed. | The watchdog destroys only a server that has stayed closed since the closing that armed it. | not executed; high | `SessionServers.ReopenedServerDestroyedAsWritten` | `SessionServers.ReopenedServerSpared` |
