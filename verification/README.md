# pipeutil: a model of its protocols and their proofs

pipeutil is a C++20 library for message passing over named pipes, with asynchronous bindings for
Python. This project models its four cores and proves what they are for:

- **The RPC protocol.** Any number of threads draw 32-bit ids from one wrapping counter, register a
  promise, send a request and wait; one receiver thread dispatches the responses or rejects all
  pending requests; the server answers in order and echoes the id.
- **Framing and CRC-32C.** A 20-byte header, a checksum, blocking loops over partial reads and
  writes, and a callback-driven reader and writer that must agree with them.
- **The multi-connection server.** An acceptor, a counting semaphore, detached handler threads with
  a slot guard, a condition-variable protocol for stopping, and statistics that move from live
  sessions to an accumulator while they are read and reset.
- **The ring buffer** between one producer and one consumer thread.

Sequential code that works on fields is a class whose methods have the loops of the source, proved
against functions or properties. Everything concurrent is a state machine: each critical section and
each atomic operation is one step, except where "Left out" says otherwise, steps interleave freely,
and the results hold for every run. Memory is sequentially consistent. The steps of the RPC machine use
the very functions against which the methods of `RpcClient.RpcPipeClient` are proved. The kernel is part of the pipe objects: a script
of answers to `poll`, `recv`, `send`, `read` and `write`, over which the contracts quantify.

| file | contents |
|---|---|
| `Words`, `Modular`, `Sums` | machine words and their bits, remainders, sums |
| `Crc32c` | polynomial division, the register, the table, error bursts |
| `Frames`, `FrameIo`, `FrameStream` | the format, `send_frame` and `recv_frame`, senders sharing a stream |
| `PosixPipe`, `AsyncPipe`, `ConnectionCap` | blocking loops, callbacks, the cap on asynchronous connections |
| `RpcIds`, `RpcClient`, `RpcServer` | ids, the client object, the serving loop |
| `RpcReplies`, `RpcIntake`, `Replay` | what the serving loop writes, what it takes off the stream, reads under another future |
| `RpcRoundTrip` | both loops of a connection against each other, byte for byte |
| `RpcProtocol`, `RpcResolution`, `RpcHistory`, `RpcWindow`, `RpcCorrelation`, `RpcAccounting`, `RpcWrap` | the machine of one connection and its theorems |
| `MultiServer`, `StopProtocol`, `ExtraPermits`, `SessionOrder` | the machine of the server and its theorems |
| `PipeStats`, `SessionStats`, `ServerStats`, `StatsRaces` | counters, without and with interference |
| `IoBuffer`, `IoBufferSpsc` | the ring buffer, without and with interference |

## Where the code and its documents disagree

The model follows the code.

- The redraw of a reserved id is a single `if` (`source/core/src/rpc_pipe_client.cpp:91`), so drawing
  0xFFFFFFFF gives the id 0, although `spec/F002_rpc_message_id.md:285` says both are skipped. A request
  with id 0 can never be answered (`RpcResolution.ZeroIdNeverSucceeds`).
- The receiver leaves its loop without rejecting anything when it reads the stop flag
  (`source/core/src/rpc_pipe_client.cpp:228`); the comment at `:231` counts on an exception. A request
  without a time limit then waits for ever (`RpcResolution.StopFlagStrands`).
- `stop()` is documented as safe to call from any thread, and to return when all handlers have finished
  (`source/core/include/pipeutil/multi_pipe_server.hpp:65-67`). `is_serving()` is true from
  `source/core/src/multi_pipe_server.cpp:45` on, but a `stop()` whose flag is set before `:49` is forgotten, and
  one that joins before `:57` ends a session whose acceptor is still to start (`SessionOrder.HandlerAfterStop`,
  `SessionOrder.TwoHandlersForOneSlot`). Apart from that order the promises hold (`SessionOrder.DisturbanceBreaks`).
- Each `stop()` leaves one more permit (`source/core/src/multi_pipe_server.cpp:73`); the comment at `:172`
  says the acceptor puts it back (`ExtraPermits.BoundIsReached`). The semaphore is declared for 64 permits, so
  the first `stop()` of a 64-connection server already releases too many (`ExtraPermits.CeilingHoldsIff`).
- `recv_frame` passes its timeout to two reads (`source/core/src/detail/frame_io.hpp:77` and `:98`), so it
  may take twice as long, exactly when the stream begins with a good header of a payload
  (`FrameIo.TimeoutKeptIff`); a round of the serving loop may take 100 ms, not the 50 of
  `source/core/src/rpc_pipe_server.cpp:145`.
- The catch clause for the interval of the serving loop (`source/core/src/rpc_pipe_server.cpp:170`) is meant for a
  receive without a frame. It also catches an interval that ran out inside a frame, whose first bytes are then lost
  (`RpcIntake.IntervalLosesRequest`, `RpcIntake.LossMisleads`), and a reply whose send timed out: the request stays
  unanswered, what was written of the reply stays on the wire, and the loop goes on (`RpcReplies.OneReplyEach`).
- `spec/02_protocol.md:34` describes a 16-byte header of version 0x01; the code has 20 bytes and 0x02.
- Timeouts above `INT_MAX` milliseconds are cut to 32 bits (`source/core/src/platform/posix_pipe.cpp:355`).
- An interrupted system call is retried by `recv_frame` but ends an asynchronous read
  (`source/python/py_async_pipe.cpp:1212-1218`).

## Model

| member | source | states |
|---|---|---|
| `RpcCorrelation.Correlation` | source/core/src/rpc_pipe_client.cpp:88-161 | in every interleaving of callers, timeouts, late responses, receiver and server in which no id is still in use 2^32 draws after its own, a call that returns normally returns the handler's answer to its own request |
| `RpcCorrelation.CorrelationForFewDraws` | source/core/src/rpc_pipe_server.cpp:142-180 | whenever at most 2^32 ids have been drawn and the handler is a function, a call that returns normally returns what the handler returned for its own request, or the empty message if the handler threw |
| `RpcCorrelation.FourWaysOut` | source/core/src/rpc_pipe_client.cpp:107-139 | within that window a promise leaves the table by its response, the disconnection, its own failed send or its own timeout; none is overwritten, erased by another call or broken |
| `RpcCorrelation.StepKeepsTraffic` | source/core/src/rpc_pipe_server.cpp:148-164 | every frame under way carries the id and payload of the call it belongs to; a request is on its way at most once and is handled at most once |
| `RpcCorrelation.FewDrawsStayInWindow` | source/core/src/rpc_pipe_client.cpp:90-103 | a run with at most 2^32 draws stays in the window |
| `RpcCorrelation.StepKeepsInv` | source/core/src/rpc_pipe_client.cpp:250-271 | the correlation invariant survives each step taken in the window, dispatch and erasure included |
| `RpcWrap.LateAnswerMisleads` | source/core/src/rpc_pipe_client.cpp:254-262 | the window is needed: a concrete run with exactly 2^32 + 1 draws in which a call returns the answer to another call's request |
| `RpcWrap.CorrelationBound` | source/core/src/rpc_pipe_client.cpp:88-161 | every call gets its own answer in all runs with at most n draws if and only if n is at most 2^32 |
| `RpcWrap.LateRegistrationOverwrites` | source/core/src/rpc_pipe_client.cpp:95-111 | a concrete run in which a registration 2^32 draws after its own draw replaces a live entry |
| `RpcWindow.NoOverwrite` | source/core/src/rpc_pipe_client.cpp:90-112 | if fewer than 2^32 draws come between each call's draw and its registration, no registration replaces an entry, although test and insertion are separate critical sections |
| `RpcResolution.ResolvedOnce` | source/core/src/rpc_pipe_client.cpp:107-139 | in every run a promise is unset exactly as long as its own entry is in the table; once set or destroyed it never changes; for what its call then reports see `RpcHistory.CallEnds` |
| `RpcHistory.CallEnds` | source/core/src/rpc_pipe_client.cpp:107-161 | in every run a call that collected its promise returns m exactly if the promise is answered with m, and raises e exactly if it was rejected with e, which some receive of the run has failed with; the others end because their own send failed, or because they have a limit and it expired |
| `RpcHistory.ErrorsAreReceived` | source/core/src/rpc_pipe_client.cpp:236-289 | in every run each error a promise was rejected with, the one kept for the plain receivers and the one they raise is the error of a receive that failed |
| `RpcHistory.LoopsEnd` | source/core/src/rpc_pipe_server.cpp:142-179 | in every run the serving loop ends only when told to or by a reply that failed otherwise than by a timeout, and the receiving loop only by an error it was given or after close() |
| `RpcHistory.FatalReplyEnds` | source/core/src/rpc_pipe_server.cpp:168-173 | after a reply that failed otherwise than by a timeout nothing more is handled, in any continuation |
| `RpcHistory.ReservedIsRedrawn` | source/core/src/rpc_pipe_client.cpp:90-103 | in every interleaving a call registered under a reserved id has drawn a reserved value before that one |
| `RpcResolution.RunKeepsTable` | source/core/src/rpc_pipe_client.cpp:213-214 | entries, promises and calls stay consistent over whole runs |
| `RpcResolution.CallsCanGoOn` | source/core/src/rpc_pipe_client.cpp:130-139 | a waiting call can collect, or time out if it has a limit, or its entry is still in the table; it can time out only if it has a limit and its entry is still there |
| `RpcResolution.ZeroIdNeverSucceeds` | source/core/src/rpc_pipe_client.cpp:90-93 | a call that was given the id 0 never returns a response, in any run |
| `RpcResolution.LeftoverEntries` | source/core/src/rpc_pipe_client.cpp:227-280 | once the receiver has ended, all entries left were registered after the rejection if and only if it ended by an error or none is left |
| `RpcResolution.StopFlagStrands` | source/core/src/rpc_pipe_client.cpp:228 | a concrete run in which close() leaves a call waiting that was registered before the receiver ended |
| `RpcResolution.StrandedForGood` | source/core/src/rpc_pipe_client.cpp:130-131 | whatever happens afterwards on the connection, such a call neither returns nor raises the disconnection |
| `RpcAccounting.PlainInOrder` | source/core/src/rpc_pipe_client.cpp:64-84 | what receive() has returned, then its queue, are the plain payloads of the frames dispatched so far, and those are a prefix of what the server wrote; the disconnection is raised only when all of them were returned, with the error of a receive that failed |
| `RpcAccounting.CountersAddUp` | source/core/src/rpc_pipe_client.cpp:141-160 | in every run each counter is, modulo 2^64, the sum of what the finished calls and plain sends contribute, the round-trip times included |
| `RpcAccounting.LastRoundTrip` | source/core/src/rpc_pipe_client.cpp:141-156 | the last round-trip time changes exactly when a call collects an answer, to the time that call measured |
| `RpcAccounting.ReceivedAreCalls` | source/core/src/rpc_pipe_client.cpp:149-155 | messages_received equals rpc_calls |
| `RpcAccounting.EveryCallCountsOnce` | source/core/src/rpc_pipe_client.cpp:117-160 | within the window each finished call has added one to rpc_calls if it returned and one to errors otherwise, never both |
| `RpcIds.CandidatesCount` | source/core/src/rpc_pipe_client.cpp:90-103 | the candidates of an undisturbed search run through 0 to 2^32 - 2 in a circle |
| `RpcIds.CandidateRange` | source/core/src/rpc_pipe_client.cpp:91-93 | no candidate is 0xFFFFFFFF, and one is 0 exactly when 0xFFFFFFFF was drawn for it |
| `RpcIds.FirstTurnIsFresh` | source/core/src/rpc_pipe_client.cpp:204 | from a new counter the first 2^32 - 2 candidates are 1, 2, 3 and so on: distinct and not reserved |
| `RpcIds.FirstTurnEndsAtZero` | source/core/src/rpc_pipe_client.cpp:91-93 | the candidate after those is the reserved id 0 |
| `RpcIds.CandidatesDistinct` | source/core/src/rpc_pipe_client.cpp:97-102 | no candidate repeats within 2^32 - 1 of them |
| `RpcIds.TriesBounded` | source/core/src/rpc_pipe_client.cpp:97 | a search that has only met ids in use has made no more tries than there are such ids |
| `RpcIds.SameIdApart` | source/core/src/rpc_pipe_client.cpp:204 | equal ids come from draws at least 2^32 apart |
| `RpcClient.RpcPipeClient.AllocateId` | source/core/src/rpc_pipe_client.cpp:90-103 | from any counter value the search ends after at most one try more than there are entries, with the first candidate that is not in the table |
| `RpcClient.RpcPipeClient.RegisterRequest` | source/core/src/rpc_pipe_client.cpp:106-111 | the table maps the id to the new promise, which is unset; a promise in the way is destroyed unset, and no other changes |
| `RpcClient.RpcPipeClient.EraseRequest` | source/core/src/rpc_pipe_client.cpp:119-122 | the entry is gone whoever owned it, with its promise destroyed by this request; a missing id changes nothing |
| `RpcClient.RpcPipeClient.DispatchFrame` | source/core/src/rpc_pipe_client.cpp:250-271 | a frame with bit 3 of the flags and an id other than 0 answers the promise under that id and removes the entry, or is dropped; any other is queued; nothing else changes, and no promise is set twice |
| `RpcClient.RpcPipeClient.NotifyPending` | source/core/src/rpc_pipe_client.cpp:274-280 | every promise in the table gets the error, no other changes, and the table is empty, in whatever order it is walked |
| `RpcClient.RpcPipeClient.Receive` | source/core/src/rpc_pipe_client.cpp:64-84 | oldest message first; the disconnection or the timeout only if there is none |
| `RpcClient.RpcPipeClient.ReceiverLoop` | source/core/src/rpc_pipe_client.cpp:227-289 | over any byte stream, chunking and script, the loop dispatches the frames of the stream in order, and all of them before it announces the end of the stream or a bad frame; each pending request ends with the first answer to its id, or else with the error that ended the loop, which is also what the plain receivers find; that error is the one due for the errno that the kernel reported last; the loop blocks only when all deliveries are used up and complete no further frame |
| `RpcClient.DispatchAllMeaning` | source/core/src/rpc_pipe_client.cpp:250-271 | a sequence of frames resolves each pending request with the first answer to its id, queues the plain payloads in order and touches nothing else |
| `RpcServer.RpcPipeServer.ServeLoop` | source/core/src/rpc_pipe_server.cpp:142-179 | for every stream, chunking and script: another receive follows exactly after a frame and after an expired interval; each frame with bit 2 of the flags puts on the wire a part of the frame with its own id, flag 8 and what the handler returned for its payload, or nothing if it threw: all of it if the send succeeded, a proper prefix if not, nothing if it is too large; other frames are dropped; the loop goes on exactly after a reply that was written or timed out; the error that ends it is the one due for the errno reported last; a round spends at most 100 ms in poll |
| `RpcServer.LoopIsRight` | source/core/src/rpc_pipe_server.cpp:142-179 | the course the loop takes has those properties, whatever the stream, the scripts and the handler |
| `RpcServer.RoundIsRight` | source/core/src/rpc_pipe_server.cpp:144-176 | one round: a request is answered as far as its send goes, another frame is dropped, exactly an expired poll lets the loop go on without a frame; a receive alone writes and counts nothing |
| `RpcServer.RequestBit` | source/core/include/pipeutil/detail/frame_header.hpp:47 | requests are the frames with bit 2 of the flags set |
| `RpcReplies.OneReplyEach` | source/core/src/rpc_pipe_server.cpp:148-170 | a loop that no reply ended has written exactly one whole encoded reply per request, and counted just these, if and only if none of the sends it made failed with ETIMEDOUT |
| `RpcReplies.LastReply` | source/core/src/rpc_pipe_server.cpp:158-173 | if a reply ended the loop and no send timed out before, the earlier replies are whole and a proper prefix of the last follows, or nothing if it is too large |
| `RpcReplies.KeepsRepliesIff` | source/core/src/rpc_pipe_server.cpp:157-170 | a script of send answers lets no stream tear a reply and go on if and only if the first error it reports, interruptions aside, is not ETIMEDOUT |
| `RpcReplies.TidyParses` | source/core/src/rpc_pipe_server.cpp:158-173 | if only the last reply left part of itself on the wire, the client parses exactly the replies that were written whole, in order |
| `RpcReplies.UntornIsTidy` | source/core/src/rpc_pipe_server.cpp:157-173 | that is so in every run of the loop in which no send failed with ETIMEDOUT |
| `RpcReplies.CountersAddUp` | source/core/src/rpc_pipe_server.cpp:160-163 | each counter is, modulo 2^64, what it was plus one and the payload size in either direction for each request whose reply was written whole |
| `RpcRoundTrip.CallerIsAnswered` | source/core/src/rpc_pipe_client.cpp:250-289 | the receiving loop of the client over the bytes the serving loop wrote: who waits under an id other than 0 gets what the handler made of the first request served under it; if none was, the error that ended the loop, or nothing yet |
| `RpcRoundTrip.RequestComesBack` | source/core/src/rpc_pipe_server.cpp:142-179 | both byte streams together: if the requests that arrive have different ids and no part of a frame is lost, the caller under the id of a request that was answered has what the handler makes of that very request |
| `RpcIntake.IntakeIsStream` | source/core/src/rpc_pipe_server.cpp:144-177 | if no poll interval of the script runs out inside a frame of which more is to come, the frames taken are the first frames of the stream, and all of them when the end of the stream or a bad frame ends the loop |
| `RpcIntake.IntervalLosesRequest` | source/core/src/rpc_pipe_server.cpp:146-170 | a request alone on the stream is never taken if the interval runs out inside its header, whatever comes after |
| `RpcIntake.LossMisleads` | source/core/src/rpc_pipe_server.cpp:146-170 | the condition is needed: if an interval does run out inside a frame of which more is to come, then after the same rounds at the same times the stream can go on so that the frames taken are no prefix of its frames |
| `Replay.ReplayRecv` | source/core/src/detail/frame_io.hpp:74-112 | a receive that leaves bytes behind takes the same bytes, answers and time whatever else the stream and the script hold |
| `Crc32c.CrcIsStandard` | source/core/src/detail/crc32c.cpp:32-40 | the table-driven register yields the remainder of Appendix B of RFC 4960, defined by polynomial division on bits, for every message |
| `Crc32c.FeedIsRemainder` | source/core/src/detail/crc32c.cpp:20-22 | clocking the register is dividing by the generator |
| `Crc32c.LookupIsUpdate` | source/core/src/detail/crc32c.cpp:35-37 | one table lookup is eight single-bit steps |
| `Crc32c.PolyIsGenerator` | source/core/src/detail/crc32c.cpp:16 | the constant is the reflected Castagnoli polynomial |
| `Crc32c.MakeTable` | source/core/src/detail/crc32c.cpp:15-26 | entry i is eight single-bit steps from i |
| `Crc32c.ComputeCrc32c` | source/core/src/detail/crc32c.cpp:32-40 | the loop computes that checksum |
| `Crc32c.AsyncMakeTable` | source/python/py_async_pipe.cpp:48-61 | the second table, built with a conditional, is the same |
| `Crc32c.AsyncCrc32cCompute` | source/python/py_async_pipe.cpp:63-71 | the second implementation computes the same checksum |
| `Crc32c.BurstChangesCrc` | source/core/src/detail/crc32c.cpp:32-40 | two messages that differ only inside a window of at most 32 bits have different checksums, at any length |
| `Crc32c.FourByteBurstChangesCrc` | source/core/src/detail/crc32c.cpp:32-40 | the same for any four consecutive bytes |
| `Frames.PayloadBurstIsRejected` | source/core/src/detail/frame_io.hpp:100-105 | a frame whose payload was changed inside four consecutive bytes is rejected |
| `Frames.DecodeEncode` | source/core/src/detail/frame_io.hpp:37-112 | decoding an encoded frame with anything behind it gives payload, id and flags back and the exact length |
| `Frames.DecodePartial` | source/core/src/detail/frame_io.hpp:76-98 | a proper prefix of a frame decides nothing |
| `Frames.AcceptedIsEncoding` | source/core/src/detail/frame_io.hpp:79-111 | what is accepted is an encoding of what is returned, up to the ignored reserved bytes and the checksum of an empty payload |
| `Frames.ParseEncodeAll` | source/core/src/detail/frame_io.hpp:74-112 | whole frames followed by an undecided rest parse to exactly those frames |
| `Frames.FrameBytes` | source/core/include/pipeutil/detail/frame_header.hpp:12-21 | every byte of an encoded frame: PIPE, version 2, the flags, two zeros, then payload size, checksum and id in little-endian order, then the payload |
| `Frames.DecodeMeaning` | source/core/src/detail/frame_io.hpp:74-112 | the decision about a stream byte by byte: when it is undecided, when it is rejected, and which frame is taken from it; an empty payload is taken whatever its checksum says |
| `Frames.ConvertedFieldIsLittleEndian` | source/core/include/pipeutil/detail/endian.hpp:19-30 | a converted field lies in memory in little-endian order on either kind of host |
| `Frames.LoadedFieldIsLittleEndian` | source/core/include/pipeutil/detail/endian.hpp:32-34 | converting a loaded field reads little-endian order on either kind of host |
| `FrameIo.HeaderBytesAreLayout` | source/core/src/detail/frame_io.hpp:52-60 | the header record, filled field by field, has the layout of the protocol on every host |
| `FrameIo.SendFrame` | source/core/src/detail/frame_io.hpp:37-66 | success writes exactly the encoded frame, failure a proper prefix, a payload of 4 GiB nothing; it fails only if a send failed, and blocks only when the script is used up, each answer that took bytes having taken at least one |
| `FrameIo.RecvFrame` | source/core/src/detail/frame_io.hpp:74-112 | under any chunking the result is what the stream decodes to and exactly the frame is consumed; at most one answer that reports an error is used, it is the last, and its errno gives the code; otherwise only a bad frame, the end of the stream or an expired limit makes it fail; without a limit it times out only on ETIMEDOUT, with one only if a read used it up; it blocks only when all deliveries are used up; at most twice the timeout is spent in poll |
| `FrameIo.TimeoutKeptIff` | source/core/src/detail/frame_io.hpp:77-98 | for every stream and every timeout that does not wait without limit or come to 0: no script makes a receive spend more than the timeout in poll if and only if the stream does not begin with a good header of a payload; on such a stream, and on no other, some script makes it exactly twice |
| `FrameIo.RecvRunIsRight` | source/core/src/detail/frame_io.hpp:74-112 | for every stream, script and clock the course that recv_frame takes has those properties |
| `FrameStream.StreamIntegrity` | source/core/src/platform/posix_pipe.cpp:328-351 | with any number of senders holding the mutex per frame and any partial writes, a receiver parses exactly the frames written so far, in lock order |
| `FrameStream.StepKeepsInv` | source/core/src/rpc_pipe_client.cpp:115-118 | the wire is always whole frames in lock order plus a prefix of the current one |
| `FrameStream.CutFrameLosesTheRest` | source/core/src/detail/frame_io.hpp:62-65 | a concrete run: a send that failed after one byte makes the receiver reject every later frame |
| `PosixPipe.PosixPipe.TimedReadAll` | source/core/src/platform/posix_pipe.cpp:358-417 | success delivers exactly the bytes asked for in stream order; the time in poll stays within the timeout over all chunks and interruptions; a timeout comes less than a millisecond early; every failure has its cause and its code from the script; the connection is taken for lost exactly at the end of the stream and after a failed recv; a read blocks only when its deliveries do not suffice |
| `PosixPipe.ReadDelivers` | source/core/src/platform/posix_pipe.cpp:401-415 | bytes are delivered in stream order, and none is lost, whatever chunks the script makes |
| `PosixPipe.ReadFails` | source/core/src/platform/posix_pipe.cpp:394-413 | a read uses at most one answer that reports an error; it is the last one used, and its errno gives the code: BrokenPipe for EPIPE and ECONNRESET, NotFound for ENOENT and ECONNREFUSED, AccessDenied, Timeout for ETIMEDOUT, else SystemError; otherwise a read fails only by the end of the stream, or by a timeout if it has one |
| `PosixPipe.ReadTimesOutIff` | source/core/src/platform/posix_pipe.cpp:384-405 | a read that fails does so with Timeout if and only if the error it met was ETIMEDOUT, or it met none and the stream had not ended; in the second case its deadline is less than a millisecond off |
| `PosixPipe.ReadCounts` | source/core/src/platform/posix_pipe.cpp:401-415 | each delivery of the script brings at least one byte or the end of the stream |
| `PosixPipe.ReadTime` | source/core/src/platform/posix_pipe.cpp:367-399 | the time in poll over all chunks and interruptions is bounded by the deadline, and no timeout is a millisecond early |
| `PosixPipe.PosixPipe.PollUntil` | source/core/src/platform/posix_pipe.cpp:375-399 | one wait never outlasts the deadline, and expires less than a millisecond before it |
| `PosixPipe.UntilPolls` | source/core/src/platform/posix_pipe.cpp:373-390 | a wait asks the kernel exactly if it has no limit or at least a millisecond is left at the clock |
| `PosixPipe.PosixPipe.ReadAll` | source/core/src/platform/posix_pipe.cpp:353-356 | the same for 64-bit timeouts; 0 waits without limit, so that only ETIMEDOUT makes it time out, and every other timeout of the range of int is kept as it is |
| `PosixPipe.PosixPipe.WriteAll` | source/core/src/platform/posix_pipe.cpp:328-351 | the kernel takes a prefix, all of it exactly on success; it fails only if a send failed, with the code due for the errno of the last answer used, and takes the connection for lost exactly on EPIPE; it blocks only when the script is used up, each answer that took bytes having taken at least one |
| `PosixPipe.ToInt32` | source/core/src/platform/posix_pipe.cpp:355 | the conversion to int stays in range and changes nothing that fits |
| `AsyncPipe.ReaderAgreesWithRecvFrame` | source/python/py_async_pipe.cpp:1196-1304 | whatever the chunks of either, the callback reader and recv_frame take the same decision with the same payload, except for sizes above 0x7FFFFFFF and the code for the end of the stream |
| `AsyncPipe.TooMuchIsTopBit` | source/python/py_async_pipe.cpp:1245-1249 | the sizes it refuses are those with the top bit set |
| `AsyncPipe.AsyncPlatformPipe.OnReadable` | source/python/py_async_pipe.cpp:1196-1304 | a callback either keeps every byte accounted for or completes the future once with the outcome the stream prescribes, having consumed 20 bytes plus the payload on success |
| `AsyncPipe.AsyncPlatformPipe.RunReader` | source/python/py_async_pipe.cpp:1107-1160 | over any sequence of callbacks the future is completed at most once and the slot is then free; it is still open only if no read failed and what was delivered, at least one byte per answer, does not make a frame yet |
| `AsyncPipe.AsyncPlatformPipe.CheckHeader` | source/python/py_async_pipe.cpp:1229-1256 | magic, version, size limit and empty payload are decided as the stream prescribes |
| `AsyncPipe.AsyncPlatformPipe.PayloadPhase` | source/python/py_async_pipe.cpp:1259-1303 | the payload phase from any point of the payload |
| `AsyncPipe.AsyncPlatformPipe.AsyncReadFrame` | source/python/py_async_pipe.cpp:971-985 | a second read is refused while one is active |
| `AsyncPipe.AsyncPlatformPipe.AsyncWriteFrame` | source/python/py_async_pipe.cpp:997-1040 | the buffered frame is the encoding with flags 0; a second write and an oversized payload are refused |
| `AsyncPipe.AsyncPlatformPipe.RunWriter` | source/python/py_async_pipe.cpp:1308-1341 | over any sequence of callbacks the future is completed at most once, with the whole frame on the wire after success and a proper prefix after failure; it fails exactly if a write failed or took nothing, and is still open only if no write did and each took at least one byte |
| `ConnectionCap.CapHolds` | source/python/py_async_pipe.cpp:105-144 | in every interleaving of add, compare, undo, release and move the counter is the counted guards plus the attempts under way, and at most 64 guards are counted |
| `ConnectionCap.AttemptDecides` | source/python/py_async_pipe.cpp:114-122 | whatever other guards do meanwhile, an attempt is counted exactly if the counter was below 64 when it added to it, and otherwise takes its own increment back and nothing else |
| `ConnectionCap.LoneAttemptDecides` | source/python/py_async_pipe.cpp:114-122 | in every reachable state in which no other attempt is under way, that is exactly if fewer than 64 guards are counted |
| `ConnectionCap.ConnectionGuard.Acquire` | source/python/py_async_pipe.cpp:114-122 | undisturbed, it succeeds exactly below the cap |
| `ConnectionCap.ConnectionGuard.MoveFrom` | source/python/py_async_pipe.cpp:137-140 | a move gives up the own slot and takes over the other's; a self-move changes nothing |
| `MultiServer.PermitsConserved` | source/core/src/multi_pipe_server.cpp:170-207 | over all sessions permits plus held slots equal the limit plus one per effective stop |
| `SessionOrder.HandlersBounded` | source/core/src/multi_pipe_server.cpp:44-92 | in every run in which stop() neither sets its flag before serve() clears it nor joins before serve() starts the acceptor, at most max + k handlers run at once after k completed stops, also while a further stop is in progress |
| `SessionOrder.DisturbanceBreaks` | source/core/src/multi_pipe_server.cpp:45-75 | the condition is exact: after any run that met it, each step that violates it can be followed by steps that break the bound or leave an ended session with a live acceptor |
| `SessionOrder.SetUpAloneIsOrderly` | source/core/src/multi_pipe_server.cpp:45-57 | a run in which no step of stop() falls between the exchange of serving_ and the start of the thread meets the condition |
| `SessionOrder.TwoHandlersForOneSlot` | source/core/src/multi_pipe_server.cpp:45-73 | a concrete run with a limit of one: stop() sets its flag, serve() clears it, and two handlers run while the first stop() is in progress |
| `SessionOrder.HandlerAfterStop` | source/core/src/multi_pipe_server.cpp:45-92 | a concrete run in which serve() and stop() have both returned and a handler is running |
| `SessionOrder.LaunchIsSafe` | source/core/src/multi_pipe_server.cpp:57 | in a run that meets the condition no acceptor thread is started while an earlier one has not been joined |
| `ExtraPermits.BoundIsReached` | source/core/src/multi_pipe_server.cpp:73 | for every limit from 1 on and every k with max + k at most 64 there is a run with k stops in which max + k handlers run at once |
| `ExtraPermits.CeilingHoldsIff` | source/core/src/multi_pipe_server.cpp:73-140 | in all runs with at most n effective stops no release passes the 64 that the semaphore promises if and only if max + n is at most 64; a server for 64 connections passes it with its first stop |
| `MultiServer.Atomics.RunAcceptor` | source/core/src/multi_pipe_server.cpp:153-222 | the loop keeps one permit per spawned handler; a connection accepted after the stop costs none |
| `MultiServer.Atomics.GuardEnd` | source/core/src/multi_pipe_server.cpp:201-206 | the end of a guard gives back one permit and takes one off the count, and notifies exactly if the count reached 0 |
| `StopProtocol.NoLostWakeup` | source/core/src/multi_pipe_server.cpp:78-91 | when stop() sleeps with a count of 0 some guard is still to notify; when serve() sleeps after serving has ended, stop() is |
| `StopProtocol.StepKeepsWake` | source/core/src/multi_pipe_server.cpp:202-206 | mutual exclusion on done_mutex_ and the wakeup invariants survive each step |
| `SessionOrder.StopIsQuiet` | source/core/src/multi_pipe_server.cpp:44-92 | in every such run, once stop() has seen the count at 0 and until the next serve(), no handler runs, each accepted connection went to exactly one thread or was dropped, and every session is in the accumulated statistics |
| `SessionOrder.ServeReturnsQuiet` | source/core/src/multi_pipe_server.cpp:59-62 | in every such run serve() returns only when its session has ended, and then everything is quiet |
| `SessionOrder.AcceptorEnds` | source/core/src/multi_pipe_server.cpp:153-176 | in every run only stop() and a failed accept end the acceptor, an expired one does not, and only stop() makes it drop a connection |
| `SessionOrder.EndedForGood` | source/core/src/multi_pipe_server.cpp:154-167 | after a failed accept, or a look at a flag that is up, nothing is accepted until stop() has joined the thread |
| `StopProtocol.StepKeepsPlaces` | source/core/src/multi_pipe_server.cpp:153-222 | each connection is at one place, and sessions are listed and folded as their threads progress |
| `StatsRaces.Conservation` | source/core/src/multi_pipe_server.cpp:107-123 | whenever stats_mutex_ is free, accumulated plus active counters are, modulo 2^64, the operations counted on registered sessions and not reset since |
| `StatsRaces.ResetIsFinal` | source/core/src/multi_pipe_server.cpp:117-123 | no operation from before a reset is in any total at its end or ever after |
| `StatsRaces.NothingElseForgets` | source/core/src/multi_pipe_server.cpp:192-200 | over any run without a reset no counted operation leaves the totals, whatever sessions end or are read meanwhile |
| `StatsRaces.ReadIsBetween` | source/core/src/multi_pipe_server.cpp:107-114 | stats_all returns the sum of a set of operations that holds all that were live when it began and none that is not live when it ends |
| `StatsRaces.HolderCanGoOn` | source/core/src/multi_pipe_server.cpp:145-149 | the holder of stats_mutex_ is never kept from finishing by other threads' counting |
| `StatsRaces.StepKeepsInv` | source/core/src/detail/session_stats.hpp:16-40 | every counter is the sum of the operations that are there, over count, fold, reset and read |
| `ServerStats.MultiPipeServer.StatsAll` | source/core/src/multi_pipe_server.cpp:107-114 | undisturbed, each field is the total over accumulated and active counters |
| `ServerStats.MultiPipeServer.ResetStatsAll` | source/core/src/multi_pipe_server.cpp:117-123 | undisturbed, all counters are zero afterwards |
| `ServerStats.MultiPipeServer.FoldSession` | source/core/src/multi_pipe_server.cpp:192-200 | the session leaves the list, the others stay, and every total is as before |
| `ServerStats.FoldKeepsTotal` | source/core/src/multi_pipe_server.cpp:198-199 | moving one session's counters into the accumulated ones keeps each field's total modulo 2^64 |
| `PipeStats.PipeStats.AddAssign` | source/core/src/pipe_stats.cpp:7-17 | every total becomes the sum modulo 2^64, also when both sides are the same object; the last round-trip time stays |
| `PipeStats.PipeStats.Plus` | source/core/src/pipe_stats.cpp:19-22 | the sum is a new object; the operands are unchanged |
| `SessionStats.SessionStats.Snapshot` | source/core/src/detail/session_stats.hpp:23-31 | the five counters, and zero for those a session does not have |
| `SessionStats.SessionStats.Reset` | source/core/src/detail/session_stats.hpp:33-39 | all counters are zero |
| `SessionStats.PipeServer.Send` | source/core/src/pipe_server.cpp:56-73 | own and session counters take the same event: one message with its payload size sent, or one error, each modulo 2^64, and nothing else moves; the frame is on the wire accordingly |
| `SessionStats.PipeServer.Receive` | source/core/src/pipe_server.cpp:75-93 | the same for receiving: one message with its payload size received, or one error, with the result the stream decodes to |
| `SessionStats.EventsAddUp` | source/core/src/pipe_server.cpp:56-93 | over any sequence of sends and receives each counter is, modulo 2^64, the sum of what its events add |
| `IoBuffer.IOBuffer.Write` | source/core/src/io_buffer.cpp:27-46 | appends as much as fits; the buffer stays usable exactly if the position does not pass 2^64 or the capacity divides 2^64 |
| `IoBuffer.IOBuffer.Read` | source/core/src/io_buffer.cpp:48-65 | takes the oldest bytes, as many as there are and are asked for |
| `IoBuffer.IOBuffer.Clear` | source/core/src/io_buffer.cpp:67-70 | the buffer is empty and usable |
| `IoBufferSpsc.ReadsArePrefixOfWrites` | source/core/src/io_buffer.cpp:27-65 | with loads, single-byte copies and publications of both threads interleaved, the bytes read are a prefix of the bytes written and unread bytes are intact, past the wrap of the counters too if the capacity divides 2^64 |
| `IoBufferSpsc.OwnersSeeTheTruth` | source/core/src/io_buffer.cpp:17-65 | in every reachable state each owner sets out to copy exactly as much as is free, or unread, and is asked for |
| `IoBufferSpsc.NeitherSideBlocks` | source/core/src/io_buffer.cpp:27-65 | in every reachable state each side has its next step |
| `IoBufferSpsc.WrapLosesByte` | source/core/src/io_buffer.cpp:34-44 | for every capacity that does not divide 2^64, a concrete run with 2^64 + 1 bytes in which the consumer gets a wrong byte |
| `IoBufferSpsc.QueueForeverIffDivides` | source/core/src/io_buffer.cpp:17-65 | in all runs, of any length, the bytes read are a prefix of the bytes written if and only if the capacity divides 2^64 |

## Left out

- Windows code, the IOCP half of the asynchronous pipe, socket creation, paths, access control and connect retries.
- Weak memory orderings: every atomic operation is sequentially consistent.
- Python objects, reference counts, exception types, `reconnecting_client.py` and the other Python wrappers.
- Cancelling or closing a half-read asynchronous frame: the bytes already taken are lost and no resynchronisation is claimed.
- Observers of the ring buffer that own neither position.
- Termination of `stop()` on POSIX, where `stop_accept` does nothing before the first accept: only safety is proved.
- A second connection of the same client object: `recv_exc_` is never cleared, and all results are about one connection.
- Callers of `serve()` or `stop()` that overlap each other: one thread calls serve, one calls stop.
- FrameStream.StreamIntegrity: says nothing about a wire on which bytes follow a frame that was cut short; `FrameStream.CutFrameLosesTheRest` shows why. Accordingly the RPC machine carries whole frames in order in each direction, and a failed send leaves none, although after one that timed out the server goes on.
- RpcReplies.TidyParses: says nothing about what the client parses when a torn reply left bytes and other replies follow it, and so neither do `RpcRoundTrip.CallerIsAnswered` and `RpcRoundTrip.RequestComesBack`.
- RpcAccounting.CountersAddUp: the counter updates at the end of a call, and the update next to an erased entry, are one step of the RPC machine; they are single atomic additions that nothing in the machine reads.
- RpcResolution.ResolvedOnce: reset_stats and the snapshot of the client's counters are not steps of the RPC machine.
- SessionOrder.StopIsQuiet: after its decrement a guard thread may still hold done_mutex_. What a stop that disturbs the set-up does to the platform object itself, which both sides then use unprotected, is not modelled.
- StatsRaces.ReadIsBetween: is about one field; nothing relates the fields of one snapshot to each other.
- AsyncPipe.AsyncPlatformPipe.OnReadable: buffers are kept as the part filled so far, so the fixed-size arrays and their offsets are not modelled; likewise for the blocking loops.
