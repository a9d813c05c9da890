# Connectivity core of python-network-tcp-auto, in Dafny

This project models the connectivity core of the repository. It has two halves.

1. **The connectivity state machine (`NetworkManager`).** There are two generations.
   - The current one is `src/network_tcp_auto/network_manager.py`, modelled in module `Manager`. It has five states: initialized, searching, connected, disconnecting and stopping. Invalid triggers are ignored.
   - The first-generation one is `src/auto_tcp_network/network_manager.py`, modelled in module `LegacyManager`. It has three states and a `shutdown` trigger that works from any state. Invalid triggers raise `MachineError`.
   - Both managers start and stop a client role (weight 1) and an optional server role (weight 2). They keep a quorum threshold, which is the weight of the roles they have started, and a per-role count of live connections. They compare the sum of the counts with the threshold to decide whether the node is connected.
   - The `transitions` library's declarative transition list is module `Machine`.
   - Each manager is a `class` whose trigger methods follow the table. The table itself is a pure lookup, proved entry by entry by `NextTable`.
2. **The client's framed pipeline (`Client` in `src/network_tcp_auto/client.py`).**
   - Module `Framing` holds the wire format: a 4-byte little-endian length, then the payload. `Encode` is the write side; `Deframe` is what the read loop delivers from a complete stream. `FirstStop` and `EndAt` say where the write loop stops on a given queue.
   - Module `TcpClient` holds the `Client` class. It has the lifecycle flags `__browser`, `__server_connection` and `__shutdown_in_progress` (as booleans), the outbound queue as a `seq`, and the read and write loops as `while` loops. Each loop is proved against the functions of `Framing`.
   - The life of one connection (`ServeConnection`) runs the two loops one after the other:
     1. the write loop drains the queue;
     2. the read loop consumes what the peer sent;
     3. the write loop takes the sentinel that the read loop queued;
     4. the disconnect handling runs.

Module `Common` holds:
- the error causes;
- the role weights;
- the jittered discovery timeout. The random draw `u` in [0, 1) is a parameter.

Module `Scenarios` replays the unit tests of `tests/unit/test_network_manager.py` as methods whose `ensures` state what each test asserts. These tests call `search()` and a constructor without an event loop, which is the first-generation API, so they are replayed against `LegacyManager`. The same runs are then replayed against the current manager. `Scenarios` also proves end-to-end runs of the client, including what an empty `send` does.

Notifications (`connection_changed`, `data_rx`, calls to the roles' `start`/`stop`) are modelled as logs that the methods append to: `published`, `connectionEvents`, `received`, `roleCalls` and `forwarded`.

Three behaviours of the code are worth stating outright, because the model follows them:
- **Stop and the current manager's counts.** The current manager's stop process (`src/network_tcp_auto/network_manager.py:84-100`) stops the roles but does not reset their counts. `Scenarios.StaleServerCount` shows the consequence: after a lost quorum, a server count of 2 that was never reset meets the rebuilt threshold of 1 on its own.
- **The send queue.** `asyncio.Queue()` at `src/network_tcp_auto/client.py:34` has no `maxsize`, so the queue is unbounded and `send` never drops data. The model keeps the bound as a field that the constructor sets to 0, meaning unbounded.
- **Payload reads.** The read loop calls `read(size)`, which may return fewer than `size` bytes, so `Deframe` delivers a truncated last payload when the stream ends early.

## Model

| member | source | states |
|---|---|---|
| Common.Weight | src/network_tcp_auto/network_manager.py:58-60 | a client role weighs 1 and a server role 2 |
| Common.StartedWeight | src/network_tcp_auto/network_manager.py:209-221 | the threshold the started roles add up to is at most 3, and is 0 exactly when no role is started |
| Common.JitteredTimeout | src/network_tcp_auto/network_manager.py:115-121 | with randomisation on, the timeout lies between T·(1−0.25) and T·(1+0.25) (bounds swapped for negative T); with it off, it is T |
| Common.Uniform | src/network_tcp_auto/network_manager.py:118-121 | `random.uniform(a, b)` for a draw in [0, 1) lies between `a` and `b`, whichever is the smaller |
| Common.Scaled | src/network_tcp_auto/network_manager.py:118-121 | scaling the span `b − a` by a draw in [0, 1) gives a value between 0 and the span |
| Framing.FromLittleEndian | src/network_tcp_auto/client.py:161 | `int.from_bytes(data, 'little')` of k bytes is below 256^k |
| Framing.ToLittleEndian | src/network_tcp_auto/client.py:184 | `to_bytes(width, 'little')` yields exactly `width` bytes |
| Framing.LittleEndianRoundTrip | src/network_tcp_auto/client.py:161-184 | reading back the little-endian bytes of any n below 256^width gives n |
| Framing.Header | src/network_tcp_auto/client.py:182-184 | the header of a payload shorter than 2^32 bytes is 4 bytes that read back as its length |
| Framing.Frame | src/network_tcp_auto/client.py:182-189 | a frame is 4 header bytes followed by exactly the payload |
| Framing.DeframeFrame | src/network_tcp_auto/client.py:155-166 | a complete frame at the front of the stream is delivered as exactly its payload, and the rest of the stream is read after it |
| Framing.DeframeEncode | src/network_tcp_auto/client.py:152-192 | decoding the concatenated frames of any payloads shorter than 2^32 gives them all back, in order and byte-exact |
| Framing.EncodeAppend | src/network_tcp_auto/client.py:175-192 | writing one more item appends exactly its frame to what is already on the wire |
| Framing.FirstStop | src/network_tcp_auto/client.py:175-197 | the write loop takes only non-empty items that fit a 4-byte header, and stops at the first empty or over-long item or at the end of the queue |
| Framing.EndAt | src/network_tcp_auto/client.py:175-201 | the write loop waits for more exactly when it drained the queue, and closes exactly when it stopped at an empty item |
| Framing.WrittenPrefixDelivered | src/network_tcp_auto/client.py:152-197 | every message the write loop puts on the wire reaches the reader intact and in queue order |
| Framing.EmptyPayloadIsSentinel | src/network_tcp_auto/client.py:84-89 | an empty payload queued behind well-formed messages ends the write loop as the sentinel does, and nothing after it is written |
| Machine.LookupFromFirstMatch | src/network_tcp_auto/network_manager.py:136-154 | scanning the list from any entry on, a trigger finds nothing exactly when no later entry has that trigger and source, and otherwise yields the destination of the first entry that does |
| Machine.LookupFirstMatch | src/network_tcp_auto/network_manager.py:136-154 | a trigger is invalid in a state exactly when no entry of the list has that trigger and source; otherwise it leads to the destination of the first such entry |
| TcpClient.Taken | src/network_tcp_auto/client.py:175-197 | the write loop takes the whole queue when it drains it, and otherwise the items up to and including the one it stopped at |
| TcpClient.TaskDoneCount | src/network_tcp_auto/client.py:179-194 | `task_done` is called once per item taken, except for an over-long item, whose header raised first |
| TcpClient.RemainingAfterStop | src/network_tcp_auto/client.py:175-197 | a drained queue is left empty; otherwise everything after the item the loop stopped at is still queued |
| TcpClient.Client.constructor | src/network_tcp_auto/client.py:23-36 | a new client neither browses nor is connected nor is shutting down, and its queue is empty and unbounded |
| TcpClient.Client.Start | src/network_tcp_auto/client.py:38-48 | afterwards the client is running; an already running client is left as it was, and a stopped one starts browsing |
| TcpClient.Client.Send | src/network_tcp_auto/client.py:84-89 | `send` never fails: it appends to the tail of the queue, or leaves the queue unchanged when a bounded queue is full |
| TcpClient.Client.FoundService | src/network_tcp_auto/client.py:114-135 | a successful connect reports one connection and stops browsing; a failed resolve or a refused connect leaves the client browsing |
| TcpClient.Client.HandleServerWrite | src/network_tcp_auto/client.py:173-201 | the loop writes exactly the encoding of the items before the first stop, ends as `EndAt` says, leaves `Remaining` on the queue and calls `task_done` `TaskDoneCount` times |
| TcpClient.Client.HandleServerRead | src/network_tcp_auto/client.py:152-171 | the loop delivers exactly `Deframe` of the stream, in order, and at end-of-stream queues a sentinel exactly when no shutdown is in progress |
| TcpClient.Client.ServeConnection | src/network_tcp_auto/client.py:203-244 | after a connection ends, the client is disconnected, has reported a count of 0, browses again exactly when no shutdown is in progress, and has put on the wire exactly what the write loop takes before its first stop |
| TcpClient.Client.Stop | src/network_tcp_auto/client.py:50-82 | `stop` leaves the client not running; when connected, it queues the sentinel and waits for the connection to end, and the connection reports 0 without resuming discovery; the shutdown flag is cleared, except when an over-long item ended the write loop, whose OverflowError the wait re-raises before the flag is cleared |
| TcpClient.ReadFrames | src/network_tcp_auto/client.py:155-166 | the read loop, run until end-of-stream, hands on exactly `Deframe` of the stream, one payload per turn and in order |
| TcpClient.DeframeAt | src/network_tcp_auto/client.py:155-166 | one turn of the read loop at any offset delivers one payload of up to the header's length, and the rest of the stream is read after it |
| TcpClient.ReadTurn | src/network_tcp_auto/client.py:155-166 | each turn of the read loop keeps what was delivered so far, followed by what the rest of the stream yields, equal to `Deframe` of the whole stream |
| TcpClient.WriteTurn | src/network_tcp_auto/client.py:177-192 | a non-empty item that fits is not where the loop stops, and writing it appends exactly its frame to what was written before it |
| TcpClient.StopAtSentinel | src/network_tcp_auto/client.py:177-197 | an empty item reached by the loop is its first stop: the loop closes, has called `task_done` once per item up to and including it, and leaves the items after it queued |
| TcpClient.StopAtOverflow | src/network_tcp_auto/client.py:177-184 | an over-long item reached by the loop is its first stop: the header raises before `task_done`, and the items after it stay queued |
| TcpClient.Drained | src/network_tcp_auto/client.py:175-177 | a loop that has taken every item waits on the empty queue, having taken and completed all of them |
| TcpClient.LoneSentinel | src/network_tcp_auto/client.py:194-201 | a queue holding only the sentinel makes the write loop write nothing, take the sentinel and close |
| TcpClient.SentinelStops | src/network_tcp_auto/client.py:73-80 | once `stop` has queued the sentinel, the write loop cannot be left waiting |
| Manager.NextTable | src/network_tcp_auto/network_manager.py:136-154 | exactly six (trigger, source) pairs change the state, to the listed destinations; every other trigger is ignored |
| Manager.InitializedOnlyAfterStop | src/network_tcp_auto/network_manager.py:136-145 | the idle state is re-entered only when a stop completes; searching is entered only by `start`, or by the end of a stop process that began with a lost quorum |
| Manager.NetworkManager.constructor | src/network_tcp_auto/network_manager.py:27-48 | a new manager is initialized, with threshold 0, zero counts and the jittered discovery timeout |
| Manager.NetworkManager.Create | src/network_tcp_auto/network_manager.py:50-52 | construction fails exactly when no client is given |
| Manager.NetworkManager.StartService | src/network_tcp_auto/network_manager.py:209-230 | starting a present role that is not running zeroes its count and adds its weight to the threshold; an absent or running role changes nothing; the threshold stays at most 3 |
| Manager.NetworkManager.Fire | src/network_tcp_auto/network_manager.py:112-154 | an invalid trigger changes nothing; a valid one moves to the table's destination, starts the client on entering searching, and publishes the new state |
| Manager.NetworkManager.Start | src/network_tcp_auto/network_manager.py:137 | `start` from initialized enters searching with threshold 1 and the client's count zeroed; from any other state it is ignored |
| Manager.NetworkManager.Stop | src/network_tcp_auto/network_manager.py:140-142 | `stop` from searching or connected enters stopping without touching the roles; from any other state it is ignored |
| Manager.NetworkManager.DiscoveryTimeout | src/network_tcp_auto/network_manager.py:125-128 | the timeout in searching starts a present server, giving threshold 3; otherwise nothing changes |
| Manager.NetworkManager.StopProcess | src/network_tcp_auto/network_manager.py:84-100 | the stop process stops the roles and sets the threshold to 0 before `_stopped`; stopping ends initialized with threshold 0, and disconnecting ends searching with threshold 1; the counts are not reset |
| Manager.NetworkManager.ConnectionChanged | src/network_tcp_auto/network_manager.py:156-186 | the role's count is overwritten; the update fails exactly when the manager is idle (threshold 0); a quorum reached while searching connects, and one lost while connected starts disconnecting |
| Manager.NetworkManager.Send | src/network_tcp_auto/network_manager.py:64-74 | data is forwarded to the client exactly when connected, and dropped otherwise |
| LegacyManager.NextTable | src/auto_tcp_network/network_manager.py:161-173 | exactly these change the state: search from initializing, `_connected` from searching, `_disconnected` from connected, and shutdown from every state |
| LegacyManager.NetworkManager.constructor | src/auto_tcp_network/network_manager.py:24-39 | a new manager is initializing, with zero counts and no threshold ever assigned |
| LegacyManager.NetworkManager.Create | src/auto_tcp_network/network_manager.py:41-43 | construction raises AttributeError exactly when no client is given |
| LegacyManager.NetworkManager.StopRoles | src/auto_tcp_network/network_manager.py:62-102 | `_stop` stops the client before the server, zeroes the count of each running role it stops, and sets the threshold to 0 |
| LegacyManager.NetworkManager.StartClient | src/auto_tcp_network/network_manager.py:104-118 | a stopped client gets a zero count and adds 1 to the threshold; a running one changes nothing |
| LegacyManager.NetworkManager.StartServer | src/auto_tcp_network/network_manager.py:120-140 | a present, stopped server gets a zero count and adds 2; without a server, or with a running one, nothing changes |
| LegacyManager.NetworkManager.Fire | src/auto_tcp_network/network_manager.py:150-173 | an invalid trigger raises and changes nothing; entering initializing runs `_stop`; entering searching runs `_stop` then `_start_client`, leaving threshold 1 and the client count 0 |
| LegacyManager.NetworkManager.Search | src/auto_tcp_network/network_manager.py:162 | `search` succeeds exactly from initializing, and enters searching with only the client started, its count zeroed, the server's count kept, and threshold 1; from any other state it raises and changes nothing |
| LegacyManager.NetworkManager.Shutdown | src/auto_tcp_network/network_manager.py:165 | `shutdown` from any state enters initializing with both roles stopped, the count of each role that was running zeroed, and threshold 0 |
| LegacyManager.NetworkManager.DiscoveryTimeout | src/auto_tcp_network/network_manager.py:153-157 | the timeout in searching starts a present server, giving threshold 3 |
| LegacyManager.NetworkManager.ConnectionChanged | src/auto_tcp_network/network_manager.py:175-201 | before any search, reading the unassigned threshold raises before the count is written; otherwise the count is overwritten, a zero threshold raises, and `_connected` or `_disconnected` fires whatever the state, succeeding only from searching or connected respectively |
| LegacyManager.NetworkManager.Send | src/auto_tcp_network/network_manager.py:51-60 | `send` forwards data and length exactly when connected, and raises SystemError otherwise |
| Scenarios.MissingClientRejected | tests/unit/test_network_manager.py:44-47 | both generations reject a missing client |
| Scenarios.LegacyClientOnlySearch | tests/unit/test_network_manager.py:58-72 | a client-only manager searches with only the client started, after the timeout too |
| Scenarios.LegacyClientOnlyConnected | tests/unit/test_network_manager.py:74-79 | a client-only manager connects on a client count of 1 |
| Scenarios.LegacyClientServerTimeout | tests/unit/test_network_manager.py:84-90 | with a server, the timeout starts both roles and the state stays searching |
| Scenarios.LegacyClientServerQuorum | tests/unit/test_network_manager.py:92-113 | with client and server, totals 1 and 2 leave the manager searching (the `_disconnected` they fire raises), and a total of 3 connects |
| Scenarios.LegacyUpdateWithoutThreshold | src/auto_tcp_network/network_manager.py:187-196 | a count update before the first search raises on the unassigned threshold, and one after a shutdown hits threshold 0 |
| Scenarios.LegacyEarlyUpdateDiscarded | src/auto_tcp_network/network_manager.py:187-201 | a count reported before the first search is not recorded, so after the search a client count of 0 stays below the threshold and fires `_disconnected`, which raises from searching |
| Scenarios.LegacyQuorumLost | src/auto_tcp_network/network_manager.py:150-164 | a lost quorum stops client and server and restarts the client, leaving threshold 1 |
| Scenarios.ClientOnlySearch | src/network_tcp_auto/network_manager.py:123-137 | a client-only current manager searches with the server never started |
| Scenarios.ClientOnlyConnected | src/network_tcp_auto/network_manager.py:170-186 | one client connection connects a client-only current manager, which publishes searching then connected |
| Scenarios.ClientServerQuorum | src/network_tcp_auto/network_manager.py:170-186 | with client and server, totals 1 and 2 stay searching and 3 connects |
| Scenarios.StopTwice | src/network_tcp_auto/network_manager.py:140-154 | a second `stop` is ignored, and the stop process brings the manager to rest with threshold 0 |
| Scenarios.DisconnectResumesSearch | src/network_tcp_auto/network_manager.py:139-144 | a lost quorum passes through disconnecting back to searching, with the threshold rebuilt to 1 |
| Scenarios.StaleServerCount | src/network_tcp_auto/network_manager.py:84-100 | the stop process leaves the server's count in place, so after a lost quorum that count alone reconnects the manager |
| Scenarios.SendOnlyWhenConnected | src/network_tcp_auto/network_manager.py:64-72 | `send` reaches the client only once connected |
| Scenarios.PeerClose | src/network_tcp_auto/client.py:152-244 | when the peer closes, messages queued while connected reach it framed and in order, and the client browses again with an empty queue |
| Scenarios.TwoQueued | src/network_tcp_auto/client.py:175-197 | two non-empty messages that fit are both taken by the write loop and written as their two frames in order |
| Scenarios.EmptySendCloses | src/network_tcp_auto/client.py:168-201 | after a message and then an empty `send` on an open connection, serving it writes only the message's frame and closes, and the read loop's end leaves its own sentinel as the one queued item |
| Scenarios.SentinelBehind | src/network_tcp_auto/client.py:173-201 | an empty item queued behind one message is the write loop's first stop: the message's frame is written, the loop closes and nothing stays queued |
| Scenarios.SentinelAhead | src/network_tcp_auto/client.py:173-201 | an empty item at the head of the queue closes the write loop before anything is written, and the item behind it stays queued |
| Scenarios.EmptySendStaleSentinel | src/network_tcp_auto/client.py:168-201 | an empty `send` closes the connection, and the read loop's sentinel then stays queued and closes the next connection before anything is written |

## Left out

- Zeroconf discovery: `ServiceBrowser`, `get_service_info`, `open_connection` and `netifaces` are network I/O. Their outcome enters `FoundService` as a `ConnectAttempt` parameter.
- asyncio scheduling: tasks, `gather`, done-callbacks and the interleaving of the read and write loops. Each loop runs to completion, one after the other.
- TcpClient.ReadFrames: the source's `if data:` after `read(4)` always holds before end-of-stream, so the model has no branch for it. `data_rx` is called once per payload in the source; the model appends the payloads to `received` in the same order once the loop ends.
- Short reads that arrive before end-of-stream: `Deframe` reads from a complete buffer. It does not model a `read` that returns fewer bytes while more are still coming.
- `writer.drain()` and `writer.close()` are I/O; the bytes written are collected in a sequence instead.
- The `transitions` library's lock and its `Timeout` timer thread: timer expiry is the explicit `DiscoveryTimeout` call.
- `random.uniform` and floating-point time: the draw is the parameter `u` of `JitteredTimeout`, and times are `real`.
- axel `Event` dispatch: notifications are appended logs. Subscribing and unsubscribing the manager's handler to a role's `connection_changed` are not modelled: `ConnectionChanged` can be called whenever a manager exists. The swallowing of handler exceptions by `Event` is not modelled either: an exception is returned as a `Fail` outcome.
- Logging throughout.
- The server role: `server.py` is not part of this model. The server is a running flag with start and stop.
- The first-generation client's `send(data, length)` is not part of this model. `LegacyManager.NetworkManager.Send` records the pair it forwards.
- TcpClient.Client.FoundService: requires that the client is browsing. It does not model two `__found_service` tasks racing after one service was found.
- TcpClient.Client.ServeConnection: an over-long item raises OverflowError in the write task. The model ends the write loop there, and does not model the read task that `gather` leaves running or the exception the connection task then ends with.
- TcpClient.Client.Stop: browsing stops synchronously; the awaited `zc.close()` is I/O. On the overflow path the model leaves the shutdown flag set, as the source does, but does not return the re-raised OverflowError.
- Manager.NetworkManager.StopProcess: the two role stops run under `gather` in the source. The model stops the client and then the server, atomically. Count updates that a stopping role reports fall before this call.
- Manager.NetworkManager.Fire: the `_stop` entry callback only schedules the stop process, so the model leaves that process to a separate call, `StopProcess`, which is allowed in disconnecting and stopping.
- Manager.NetworkManager.Send: forwarded data is recorded in a log. The client's own queue is the separate `TcpClient.Client.Send`.
