# PAL plugins for PulseAudio: a verification model

This Dafny project models the stateful parts of the PulseAudio plugins and client libraries that sit on
the PAL audio HAL, and proves what they keep over all inputs, runs and interleavings. PAL, D-Bus and
libpulse are oracles throughout: any PAL call may fail, signals arrive in order, and libpulse chooses
the sizes it grants. Their answers are parameters of the steps and methods.

| File | What it models |
|---|---|
| `ReadBufferServer.dfy` | the voice-UI session: async read thread, request and stop handlers, detection callback |
| `ReadBufferProtocol.dfy` | the voice-UI client's read composed with that session |
| `ControlHandshake.dfy` | the mutex-and-condition handshake of control and I/O threads in sinks and sources |
| `WriteChunk.dfy` | the short-write loop of the sink |
| `ChunkPipeline.dfy` | the render thread and the PAL write thread of a compressed sink |
| `SinkLifecycle.dfy` | start, standby, restart and free of a PAL sink, with PAL's ledger of open streams |
| `Latency.dfy` | the sink latency calculation on 64-bit words |
| `PlaybackClient.dfy` | the Bluetooth playback client's write callback |
| `JackRegistry.dfy` | the jack mask, map and reference counts |
| `Hfp.dfy`, `Loopback.dfy` | hands-free stream acquisition, and the Bluetooth loopback sessions |
| `ConfigIndex.dfy` | the cross-index of the configuration parser |
| `UeventScanner.dfy` | the HDMI hot-plug scanner and its edge-triggered state |
| `PhraseWire.dfy` | key-phrase lists between voice-UI client and server |
| `KeyValue.dfy` | the key=value printer and parsers |
| `BufferRates.dfy` | buffer sizes and nearest rates |
| `FrameArithmetic.dfy`, `Wrappers.dfy` | whole frames by floor division; an option type |

Code that updates fields or buffers in place is a class or a method with loops, proved equal to a
specification function on values; what the source promises is proved about that function, over whole
runs of calls. Protocols between threads are step systems over single accesses to shared state.
`dafny verify dfyconfig.toml` checks everything.

Some statements one would expect are false of the code. The code is modelled as it is, and the exact
condition under which each holds is proved instead, with a run that breaks it where that helps:

- A wakeup of the voice-UI thread is lost when it enters its wait with a read queued.
- A failed stop_buffering returns with the session mutex locked, and ends the session for good.
- A write error leaves the sink's mutex locked, so that volume and device changes block.
- The resume offset of the short-write loop is right only if all writes but the last two took nothing,
  and bytes_written counts only the last write.
- A restart that finds PAL open and the core's sink not opened forgets the stream it holds.
- A sink can be started while its write loop is told to leave: set_format with no format asks for that, and
  only an open, not a start, takes it back.
- A detection during the unlocked read lets a read of another size be answered from the wrong buffer, and a
  detection after EXIT, or the thread's own IDLE, keeps the unload handler waiting.
- A refused buffer size leaves the new stream open and unowned.
- Reconnecting a use case can reuse the other session's object path and fail an assertion.
- bytes_written need not be 0 when a stream starts: a write of the compressed sink's thread may be counted
  after the close.
- A voice-UI read begun while an old answer is under way can return that answer, with a count greater than
  the size asked for.
- A voice-UI read that fails or times out leaves its buffer in reach, so that a late signal writes to it after the
  caller has it back.
- A spurious wakeup lets a transfer begin ahead of an announced volume or device change.
- A late profile port is not filed under the sinks and sources that already have it.
- A failed playback write loses the frames it was given.

Assumptions made by a theorem are its `requires` clauses: `Calm` steps in `ReadBufferServer`, `Orderly`
runs in `SinkLifecycle`, `InRange` in `Latency`, `AllCooperative` in `PlaybackClient`.

## Model

| member | source | states |
|---|---|---|
| ReadBufferServer.InvStep | modules/pa-pal-plugins/module-pal-voiceui-card/module-pal-voiceui-card.c:385-460 | every step of thread, handlers, callback and spurious wakeup keeps: mutual exclusion by the session mutex, numbering, and the account of every accepted read |
| ReadBufferServer.EveryReadHasOneFate | modules/pa-pal-plugins/module-pal-voiceui-card/module-pal-voiceui-card.c:385-460 | over every interleaving, signals are numbered 1, 2, 3, ... without gap, each carries exactly as many bytes as the read last accepted asked for, they answer different accepted reads in order, and accepted reads = answered + cancelled + overwritten by a detection + pending, with at most one pending |
| ReadBufferServer.StatusIsPalsAnswer | modules/pa-pal-plugins/module-pal-voiceui-card/module-pal-voiceui-card.c:427-437 | over every interleaving, the status of each signal sent, and of the one in the making, is what PAL answered to the thread's read before it if that was positive, and -ENODATA otherwise |
| ReadBufferServer.StopSafety | modules/pa-pal-plugins/module-pal-voiceui-card/module-pal-voiceui-card.c:786-816 | from the success of a stop until the next detection no read is accepted and no ReadBufferAvailable is sent, whatever interleaves, even with the thread inside its unlocked read |
| ReadBufferServer.FailedStopEndsTheSession | modules/pa-pal-plugins/module-pal-voiceui-card/module-pal-voiceui-card.c:798-809 | the handler returns holding the mutex if and only if pal_stream_stop fails; from then on nothing is ever accepted or sent |
| ReadBufferServer.EveryStopSeenIsAnswered | modules/pa-pal-plugins/module-pal-voiceui-card/module-pal-voiceui-card.c:399-413 | over every interleaving StopBufferingDone is sent exactly once for each time the thread, after its wait or after a read, finds STOP_BUFFERING |
| ReadBufferServer.StopIsAnswered | modules/pa-pal-plugins/module-pal-voiceui-card/module-pal-voiceui-card.c:430-453 | a stop that finds the thread woken or inside a read is answered after at most four of the thread's own steps, each of them enabled, and nothing else is sent |
| ReadBufferServer.StopCallsOffARead | modules/pa-pal-plugins/module-pal-voiceui-card/module-pal-voiceui-card.c:439-453 | a run, for every fresh session and positive size, in which a stop calls off the read that the thread is inside: the read is not answered and the stop is |
| ReadBufferServer.NoLostWakeup | modules/pa-pal-plugins/module-pal-voiceui-card/module-pal-voiceui-card.c:393-454 | if detections come only while the thread waits and requests only after it started: an idle session with a free mutex has its thread in the wait, no wakeup is lost, and every signal carries as many bytes as the buffer read for it |
| ReadBufferServer.QueuedReadIsAnswered | modules/pa-pal-plugins/module-pal-voiceui-card/module-pal-voiceui-card.c:393-454 | liveness under the same assumptions: a queued read is answered after a bounded number of the thread's own steps, each of them enabled |
| ReadBufferServer.WakeupIsLostExactlyWhen | modules/pa-pal-plugins/module-pal-voiceui-card/module-pal-voiceui-card.c:393-396 | without the assumptions: a step loses a wakeup if and only if the thread enters its unconditional wait with a read queued |
| ReadBufferServer.RunLosesWakeupIff | modules/pa-pal-plugins/module-pal-voiceui-card/module-pal-voiceui-card.c:393-396 | the same for whole runs, as an if-and-only-if |
| ReadBufferServer.RequestBeforeFirstWaitIsLost | modules/pa-pal-plugins/module-pal-voiceui-card/module-pal-voiceui-card.c:769-781 | a run, for every fresh session and positive size, in which a request accepted before the thread's first wait is never served |
| ReadBufferServer.LostReadWasAcceptedTooEarly | modules/pa-pal-plugins/module-pal-voiceui-card/module-pal-voiceui-card.c:393-454 | which reads are lost, as an if-and-only-if over runs: those accepted before the thread's first wait, or during the stop that follows a read, and called off by neither a detection nor an unload before the thread waits |
| ReadBufferServer.ReadDuringStopAfterWaitIsAnswered | modules/pa-pal-plugins/module-pal-voiceui-card/module-pal-voiceui-card.c:399-416 | a run, for every fresh session and payload: a read accepted during the stop that follows a wait is answered, since the thread then looks for a read |
| ReadBufferServer.ReadDuringStopAfterReadIsLost | modules/pa-pal-plugins/module-pal-voiceui-card/module-pal-voiceui-card.c:439-453 | a run, for every fresh session and positive size: a read accepted during the stop that follows a read is lost, since the thread then waits |
| ReadBufferServer.SpuriousWakeupServesALostRead | modules/pa-pal-plugins/module-pal-voiceui-card/module-pal-voiceui-card.c:393-399 | a spurious wakeup would still serve a read whose wakeup was lost |
| ReadBufferServer.SizesDivergeExactlyWhen | modules/pa-pal-plugins/module-pal-voiceui-card/module-pal-voiceui-card.c:427-435 | step by step and for every step: when the buffer read for the coming signal stops having the announced size, and when a signal of the wrong size is sent |
| ReadBufferServer.RunSendsWrongSizeIff | modules/pa-pal-plugins/module-pal-voiceui-card/module-pal-voiceui-card.c:302-306 | over whole runs: a signal is sent whose size is not that of the buffer read for it if and only if a read of another size is accepted during the unlocked read and is then answered |
| ReadBufferServer.DetectionDuringReadSendsWrongSize | modules/pa-pal-plugins/module-pal-voiceui-card/module-pal-voiceui-card.c:506 | for every fresh session and every two different positive sizes, a run with a detection during the unlocked read that sends such a signal |
| ReadBufferServer.UnloadReturnsIff | modules/pa-pal-plugins/module-pal-voiceui-card/module-pal-voiceui-card.c:1136-1162 | once the unload handler waits for the thread, a continuation without spurious wakeups lets it return if and only if the thread has left, or EXIT is set, no failed stop keeps the mutex, and the thread is neither asleep unsignalled, nor about to sleep, nor about to write IDLE over it |
| ReadBufferServer.DetectionHoldsUpUnload | modules/pa-pal-plugins/module-pal-voiceui-card/module-pal-voiceui-card.c:1146-1148 | a run, for every fresh session, in which a detection overwrites EXIT and the unload handler never returns |
| ReadBufferProtocol.CopyStep | utils/pa_pal_voiceui/pa_pal_voiceui.cpp:93-149 | the client's check and copy of one signal keep its invariant: what the buffer holds is a prefix of that very signal's payload, newer than all returned before |
| ReadBufferProtocol.InvStep | utils/pa_pal_voiceui/pa_pal_voiceui.cpp:1196-1248 | every step of reader, dispatcher and server keeps the composed invariant |
| ReadBufferProtocol.DeliveriesAreDistinctAndOrdered | utils/pa_pal_voiceui/pa_pal_voiceui.cpp:1196-1248 | over every interleaving of reads, failed calls, timeouts, in-order delivery and server steps: the client's sequence never exceeds what the server emitted, and reads that return data return payloads of pairwise distinct signals in increasing order, none processed before the read began, no more than were accepted |
| ReadBufferProtocol.FailedPalReadsReturnNoData | utils/pa_pal_voiceui/pa_pal_voiceui.cpp:119-126 | client and server composed, over every interleaving: a read that returns data returns a signal for which PAL answered with a positive count, so a failed PAL read reaches no caller as data |
| ReadBufferProtocol.AnsweredReadReturnsItsData | utils/pa_pal_voiceui/pa_pal_voiceui.cpp:93-149 | a waiting read that the next signal wakes can take its three steps, and returns that signal's payload cut to the size requested, whichever read it answers |
| ReadBufferProtocol.OwnAnswerExactlyIf | utils/pa_pal_voiceui/pa_pal_voiceui.cpp:1196-1248 | over every interleaving, calls that fail on the client's side included: a read that returns data returns the answer to an accepted read and the count that read asked for; it is the answer to its own request if and only if the signal was sent after the server accepted that request, and then the count is the size it asked for |
| ReadBufferProtocol.QuietReadReturnsItsOwn | utils/pa_pal_voiceui/pa_pal_voiceui.cpp:1196-1248 | a read begun when no signal, request or answer is under way returns, if it returns data, its own answer with the count it asked for, whatever interleaves |
| ReadBufferProtocol.ReturnedBufferIsLeftAlone | utils/pa_pal_voiceui/pa_pal_voiceui.cpp:1243-1245 | between a read that has returned data and the next one, whatever signals come: nothing is written to the buffer it gave back, and what it returned stays as it was |
| ReadBufferProtocol.TakeGivesTheBufferBack | utils/pa_pal_voiceui/pa_pal_voiceui.cpp:1231-1248 | the same from the read's last step on: it returns buffer and count, and its buffer is out of reach until the next read begins |
| ReadBufferProtocol.FailedReadIsWrittenToExactlyIf | utils/pa_pal_voiceui/pa_pal_voiceui.cpp:1231-1246 | a read that fails or times out keeps its buffer in reach: before the next read begins the buffer is written to if and only if a signal that brings data comes |
| ReadBufferProtocol.StaleAnswer | utils/pa_pal_voiceui/pa_pal_voiceui.cpp:1231-1246 | a run, for every payload and every smaller size: a read after a timed-out one returns the old answer, and a count greater than it asked for |
| ReadBufferProtocol.OwnStep | modules/pa-pal-plugins/module-pal-voiceui-card/module-pal-voiceui-card.c:751-784 | every step, the server's acceptance and refusal of requests included, keeps the invariant behind it |
| ControlHandshake.NoOverlapAndNoDeadlock | modules/pa-pal-plugins/module-pal-card/src/pal-sink.c:203-208 | with one control and one I/O thread, spurious wakeups included: a transfer never overlaps a control call, and whenever the I/O thread waits, the control thread's at most five remaining steps are all enabled and end in the wakeup |
| ControlHandshake.ControlReachesItsSignal | modules/pa-pal-plugins/module-pal-card/src/pal-source.c:172-177 | the control thread alone, from any reachable point with the mutex not held by I/O, reaches its signal and wakes a waiting I/O thread |
| ControlHandshake.ControlIsStuckOnlyByAWriteError | modules/pa-pal-plugins/module-pal-card/src/pal-sink.c:843-857 | over every run, the control thread can still reach its PAL call if and only if the write loop has not left on a write error (which keeps the mutex); for a source it always can |
| ControlHandshake.BrokenForever | modules/pa-pal-plugins/module-pal-card/src/pal-sink.c:850-853 | after a write error the mutex stays locked and no control call happens, for the rest of every run |
| ControlHandshake.BrokenExactlyIfATransferFailed | modules/pa-pal-plugins/module-pal-card/src/pal-sink.c:850-853 | over every run the write loop has left with the mutex if and only if it is a sink's and a transfer once failed |
| ControlHandshake.AnnouncedCallGoesFirst | modules/pa-pal-plugins/module-pal-card/src/pal-sink.c:843-848 | once a control call is announced no transfer begins until it has released the mutex, unless the I/O thread had been woken before or is woken for no reason |
| ControlHandshake.SpuriousWakeupOvertakes | modules/pa-pal-plugins/module-pal-card/src/pal-sink.c:845-848 | a run in which a spurious wakeup lets a transfer begin ahead of an announced call, the event being tested with if |
| ControlHandshake.IoTransfersAlone | modules/pa-pal-plugins/module-pal-card/src/pal-sink.c:841-888 | with nothing announced and nobody else holding the mutex, an I/O thread that is awake comes to its transfer by its own steps, each of them enabled |
| WriteChunk.SinkWriter.Write | modules/pa-pal-plugins/module-pal-card/src/pal-sink.c:829-891 | the loop delivers the positions given by the sums of earlier running totals, ends as specified, keeps the mutex exactly on a write error, and adds only its last return code to bytes_written, modulo 2^64 |
| WriteChunk.CompressedChunk | modules/pa-pal-plugins/module-pal-card/src/pal-sink.c:861-886 | a consumed compressed chunk reached PAL whole and in order if and only if all writes but the last two took nothing, and was fully counted if and only if all but the last took nothing |
| WriteChunk.DeliveredInOrderIff | modules/pa-pal-plugins/module-pal-card/src/pal-sink.c:870-872 | for any sequence of writes ending in a nonzero one, delivery is in order if and only if all but the last two are zero |
| WriteChunk.PcmChunk | modules/pa-pal-plugins/module-pal-card/src/pal-sink.c:873-886 | a PCM chunk gets one write; it is delivered whole if and only if that write took all |
| WriteChunk.ConsumedTakesAll | modules/pa-pal-plugins/module-pal-card/src/pal-sink.c:861-872 | a compressed chunk is only left as consumed when the writes sum to its length and the last is not zero |
| WriteChunk.ProgressEndsTheLoop | modules/pa-pal-plugins/module-pal-card/src/pal-sink.c:841-888 | if every write takes at least one byte the loop ends within as many passes as the chunk has bytes |
| WriteChunk.RemainderOffsetIsAlwaysRight | modules/pa-pal-plugins/module-pal-card/src/pal-sink.c:869-872 | with offset = length minus remaining, every sequence of short writes delivers in order: the intended statement |
| ChunkPipeline.OneChunkInFlight | modules/pa-pal-plugins/module-pal-card/src/pal-sink.c:893-914 | over all interleavings of render and write thread, short writes, write errors and PAL's events included, at most one chunk is in flight and processed ++ in flight = rendered in order; both threads stand still if and only if the writer waits for PAL's event or for the mutex its own write error left locked |
| ChunkPipeline.PassesAreAccountedFor | modules/pa-pal-plugins/module-pal-card/src/pal-sink.c:829-891 | over all interleavings: what was rendered is what the render thread was given, a chunk is done with exactly when a pass over it was not short, the writer waits exactly when a short pass has not had its event, and the mutex is left locked exactly when a pass has failed |
| ChunkPipeline.NextChunkGoesThrough | modules/pa-pal-plugins/module-pal-card/src/pal-sink.c:893-914 | after any run without a failed write, enabled steps bring both threads to rest, and the next chunk is rendered and written after all those before it |
| ChunkPipeline.InvStep | modules/pa-pal-plugins/module-pal-card/src/pal-sink.c:1046-1062 | every access of either thread keeps that invariant |
| SinkLifecycle.EveryStreamIsAccountedFor | modules/pa-pal-plugins/module-pal-card/src/pal-sink.c:1208-1331 | over every run of state changes and restarts with PAL failing arbitrarily, the streams opened and not closed are exactly the one held and those forgotten by the named calls, and these are disjoint; the handle in hand is never that of a stream already closed |
| SinkLifecycle.Lifecycle | modules/pa-pal-plugins/module-pal-card/src/pal-sink.c:384-445 | over every run in which restarts close first: out of standby implies opened and not restarting; opened implies a live handle; streams open in PAL = 1 exactly when opened, plus one per refused buffer size; no assertion fails |
| SinkLifecycle.ClosingExactlyIfEnded | modules/pa-pal-plugins/module-pal-card/src/pal-sink.c:771-775 | over every run at all: an opened sink's write loop has been told to leave if and only if set_format with no format came, with a handle held, since the last open that succeeded |
| SinkLifecycle.PlaysWithoutWriting | modules/pa-pal-plugins/module-pal-card/src/pal-sink.c:391-418 | a run: restart while suspended, set_format with no format, start; the sink plays with the write loop told to leave |
| SinkLifecycle.StreamStartsAtZeroExactlyIf | modules/pa-pal-plugins/module-pal-card/src/pal-sink.c:857-874 | over every run: a start that returns 0 leaves in bytes_written the integer sum, modulo 2^64, of the codes of the writes counted since the last close; so it is 0 if and only if that sum is a multiple of 2^64 |
| SinkLifecycle.CountRun | modules/pa-pal-plugins/module-pal-card/src/pal-sink.c:1268-1302 | over every run bytes_written is that integer sum modulo 2^64, taken anew at each call that closes an open sink with its handle |
| SinkLifecycle.LateCountIsCarriedOver | modules/pa-pal-plugins/module-pal-card/src/pal-sink.c:857-874 | a run of a compressed sink, for every count: a write of its own thread counted only after the close has zeroed bytes_written is carried over into the next stream |
| SinkLifecycle.StepKeeps | modules/pa-pal-plugins/module-pal-card/src/pal-sink.c:538-562 | every call that does not skip the close keeps the invariant and forgets a stream exactly when it opens one whose buffer size is refused |
| SinkLifecycle.StartIsAllOrNothing | modules/pa-pal-plugins/module-pal-card/src/pal-sink.c:384-426 | a start returns the code of the first needed PAL call to fail, or 0, and with 0 the sink plays a live stream; a failed start leaves it closed and in standby, with PAL's streams as before except for a refused buffer size |
| SinkLifecycle.HandleIsLostExactlyWhen | modules/pa-pal-plugins/module-pal-card/src/pal-sink.c:1324-1371 | a call leaves the sink opened without a handle if and only if it is a restart that skips the close, passes format and channel map, and fails to open |
| SinkLifecycle.HeldStreamIsForgottenExactlyWhen | modules/pa-pal-plugins/module-pal-card/src/pal-sink.c:1325-1371 | the stream held is forgotten by a call if and only if that call is a restart that skips the close and reaches the open |
| SinkLifecycle.SecondRestartWhileSuspended | modules/pa-pal-plugins/module-pal-card/src/pal-sink.c:1315-1376 | a run: two restarts of a suspended sink leave the first stream open in PAL for good, and abort at the next suspend if and only if the second open failed |
| SinkLifecycle.StateChangeDoes | modules/pa-pal-plugins/module-pal-card/src/pal-sink.c:538-562 | suspending or unlinking leaves the sink closed and PAL's ledger without its stream, with the count zeroed if it was open; opening leaves it out of standby if and only if 0 is returned; a dynamic use case leaving its initial state changes nothing and returns 0 |
| SinkLifecycle.ClosingStopsTheWriter | modules/pa-pal-plugins/module-pal-card/src/pal-sink.c:1268-1302 | whatever call closes an open sink tells the write loop to leave, sets standby and empties the byte count |
| SinkLifecycle.RestartReconfigures | modules/pa-pal-plugins/module-pal-card/src/pal-sink.c:1324-1376 | a restart that closes first returns the code of the first step to fail, or 0, and with 0 the sink is open in the new format; rendering stays off until a start succeeds |
| SinkLifecycle.FormatIsTheLastAsked | modules/pa-pal-plugins/module-pal-card/src/pal-sink.c:1363-1371 | over every run the sink plays compressed or PCM as the last restart that reached its open asked, whether or not that open succeeded, and otherwise as at creation; no call changes its use case |
| SinkLifecycle.FreeAloneLeaksExactlyIf | modules/pa-pal-plugins/module-pal-card/src/pal-sink.c:1406-1417 | free_pal_sink by itself leaves a stream open if and only if the sink is opened and still in standby |
| SinkLifecycle.UnlinkThenFreeLeavesNothing | modules/pa-pal-plugins/module-pal-card/src/pal-sink.c:1742-1748 | closing a sink unlinks it before freeing it, and the two together always close the stream held and no other |
| SinkLifecycle.PalSink.OpenPalSink | modules/pa-pal-plugins/module-pal-card/src/pal-sink.c:1208-1266 | the method on the sink's fields refines the specification function, whole new state and return code |
| SinkLifecycle.PalSink.ClosePalSink | modules/pa-pal-plugins/module-pal-card/src/pal-sink.c:1268-1313 | likewise, including the failed assertion on a missing handle |
| SinkLifecycle.PalSink.StartSink | modules/pa-pal-plugins/module-pal-card/src/pal-sink.c:384-426 | likewise, including the cleanup |
| SinkLifecycle.PalSink.SetFormatNull | modules/pa-pal-plugins/module-pal-card/src/pal-sink.c:771-782 | the branch without a format refines the specification function |
| SinkLifecycle.PalSink.SetStateInIoThread | modules/pa-pal-plugins/module-pal-card/src/pal-sink.c:538-562 | likewise, including the dynamic use case |
| SinkLifecycle.PalSink.RestartPalSink | modules/pa-pal-plugins/module-pal-card/src/pal-sink.c:1315-1378 | likewise |
| Latency.LatencyRefines | modules/pa-pal-plugins/module-pal-card/src/pal-sink.c:316-381 | barring 64-bit overflow, signed in the clock conversion, the branching code on wrapped words equals max(0, written - toBytes(max(0, session + now - clock))) in microseconds, or the time of all bytes written without a timestamp |
| Latency.ClockIsExactExactlyIf | modules/pa-pal-plugins/module-pal-card/src/pal-sink.c:329-335 | for every 64-bit tick count: the conversion to microseconds is right if and only if ten times the ticks fit a positive signed word |
| Latency.LatencyFallsWithTime | modules/pa-pal-plugins/module-pal-card/src/pal-sink.c:331-361 | with written bytes and timestamp fixed the latency never rises as ticks pass |
| Latency.LatencyIsBounded | modules/pa-pal-plugins/module-pal-card/src/pal-sink.c:355-379 | it lies between 0 and the playing time of the bytes written |
| Latency.LatencyIsZeroExactlyWhenPlayedOut | modules/pa-pal-plugins/module-pal-card/src/pal-sink.c:355-361 | up to one frame a microsecond it is 0 if and only if less than one whole frame is left to render |
| Latency.GetLatency | modules/pa-pal-plugins/module-pal-card/src/pal-sink.c:292-382 | the source's branches compute the specification function on 64-bit words, the clock conversion included |
| PlaybackClient.PlaybackConservation | utils/pa_bt_audio/pa_client_playback.c:97-165 | for every input, frame size and callbacks granted at least a frame: written ++ partial ++ pending = input, writes are whole frames, the partial is under a frame, and when input is used up exactly its longest whole-frame prefix was written, after at most as many grants as input bytes |
| PlaybackClient.EveryByteIsHandedOnce | utils/pa_bt_audio/pa_client_playback.c:97-165 | for every input and whatever libpulse does: what was handed to it, then the cached partial frame and the pending input, are the input, in order and once each; and what was written is what was handed over less the writes that failed |
| PlaybackClient.FlagsSay | utils/pa_bt_audio/pa_client_playback.c:97-165 | whatever libpulse does: quit is set if and only if a buffer was refused or the write of a whole frame failed; the stream is given up if and only if a grant had no room or no input; writing counts as done exactly then, or once a grant has taken the last of the input |
| PlaybackClient.CallbackConserves | utils/pa_bt_audio/pa_client_playback.c:97-165 | each callback keeps conservation and strictly shrinks pending input when a buffer is granted |
| PlaybackClient.DrainsEarlyExactlyIf | utils/pa_bt_audio/pa_client_playback.c:124-138 | a grant ends the stream with input pending if and only if the cached partial frame fills it |
| PlaybackClient.FailedWriteConservesExactlyIf | utils/pa_bt_audio/pa_client_playback.c:140-160 | after a failed write the input is still accounted for if and only if there was no whole frame to write |
| PlaybackClient.Client.StreamWriteCallback | utils/pa_bt_audio/pa_client_playback.c:97-165 | the callback on its global buffer state refines the specification function |
| JackRegistry.EveryRunAgrees | modules/pa-pal-plugins/module-pal-card/src/pal-jack.c:60-170 | after any sequence of register and deregister calls: the mask is the OR of exactly the registered types; a type is registered if and only if handles of it are live; its count is their number; back-end enable and disable alternate per type and were last enabled exactly if registered |
| JackRegistry.HandlesAreThoseGranted | modules/pa-pal-plugins/module-pal-card/src/pal-jack.c:60-170 | after any sequence of calls the handles held are those of a ledger kept from the calls alone: a request for a jack with a reporter of its own is granted, one for hdmi-out if it gets its socket or somebody holds it, and no other, so nobody ever holds a headset, headphone or line-out |
| JackRegistry.NormalisedByName | modules/pa-pal-plugins/module-pal-card/src/pal-jack.c:73-74 | line-out and headphone are filed under the headset's name, and every other type under its own |
| JackRegistry.StepKeeps | modules/pa-pal-plugins/module-pal-card/src/pal-jack.c:60-170 | each call keeps that agreement |
| JackRegistry.ToggleFlips | modules/pa-pal-plugins/module-pal-card/src/pal-jack.c:37-43 | XOR with a single bit adds the type to the set behind the mask or takes it out |
| JackRegistry.PortNamesDiffer | modules/pa-pal-plugins/module-pal-card/src/pal-utils.c:68-84 | the type-to-port-name table is injective |
| JackRegistry.RegisterCases | modules/pa-pal-plugins/module-pal-card/src/pal-jack.c:60-119 | a registration succeeds if and only if the type has a name and is registered already or its back end gives a jack; otherwise nothing changes |
| JackRegistry.DeregisterUndoesRegister | modules/pa-pal-plugins/module-pal-card/src/pal-jack.c:121-170 | giving a fresh handle back restores mask, map and handles |
| JackRegistry.FinalResetIsRedundant | modules/pa-pal-plugins/module-pal-card/src/pal-jack.c:155-167 | when the last jack goes, XOR alone has made the mask 0 |
| JackRegistry.DeregisterKeeps | modules/pa-pal-plugins/module-pal-card/src/pal-jack.c:121-170 | deregistering a live handle succeeds and keeps the agreement |
| JackRegistry.JackModule.RegisterEventCallback | modules/pa-pal-plugins/module-pal-card/src/pal-jack.c:60-119 | the method on the static mask and hashmap refines the specification function and keeps the invariant |
| JackRegistry.JackModule.DeregisterEventCallback | modules/pa-pal-plugins/module-pal-card/src/pal-jack.c:121-170 | likewise, with the jack type saved before the disable call frees it |
| Hfp.StartIsAllOrNothing | modules/pa-pal-plugins/module-pal-card/src/hfp.c:111-267 | for every combination of PAL outcomes: all steps succeed, the code is 0 and exactly two new streams are open and playing, held as receive and transmit; or the code is not 0 and PAL has the streams it had |
| Hfp.StopClosesBothExactlyIf | modules/pa-pal-plugins/module-pal-card/src/hfp.c:269-313 | stopping closes both streams if and only if nothing fails before the last close; it returns 0 if and only if nothing fails, and running is false either way |
| Hfp.StopLeavesExactly | modules/pa-pal-plugins/module-pal-card/src/hfp.c:283-308 | which of the two streams a stop leaves open, for every combination of outcomes |
| Hfp.StartReports | modules/pa-pal-plugins/module-pal-card/src/hfp.c:111-267 | a start returns the code of the first PAL call to fail, -EINVAL without ports, and keeps no handle of a stream that it has closed |
| Hfp.StopReports | modules/pa-pal-plugins/module-pal-card/src/hfp.c:269-313 | a stop returns the code of the first PAL call to fail, and forgets a stream's handle only once its stop and its close have succeeded; without a running use case it fails and does nothing |
| Hfp.StopUndoesStart | modules/pa-pal-plugins/module-pal-card/src/hfp.c:277-308 | start then stop leaves PAL's streams as before if and only if nothing fails before the last close |
| Hfp.Device.Start | modules/pa-pal-plugins/module-pal-card/src/hfp.c:111-267 | the method on the device's fields refines the specification function |
| Hfp.Device.Stop | modules/pa-pal-plugins/module-pal-card/src/hfp.c:269-313 | likewise |
| Loopback.SessionsAgree | modules/pa-pal-plugins/module-pal-card/src/pal-loopback.c:236-424 | over every sequence of connect, disconnect, create, destroy, rate change and connection drop: counter = map size, paths = map values, a use case has its handle if and only if its session is in the map; and what runs has its streams open and playing |
| Loopback.EveryStreamIsAccountedFor | modules/pa-pal-plugins/module-pal-card/src/pal-loopback.c:236-478 | over every sequence of requests: the streams open in PAL are those of the running use cases and those a failing stop left behind, and these are apart |
| Loopback.StepKeeps | modules/pa-pal-plugins/module-pal-card/src/pal-loopback.c:236-424 | each request keeps that agreement |
| Loopback.AbortsExactlyWhen | modules/pa-pal-plugins/module-pal-card/src/pal-loopback.c:329-335 | a request fails the assertion on adding the interface if and only if it connects a new use case, its set-up succeeds, and the other use case is connected under path number 2 |
| Loopback.ReconnectAborts | modules/pa-pal-plugins/module-pal-card/src/pal-loopback.c:329-335 | four ordinary requests that reach that assertion |
| Loopback.ConnectsExactlyIf | modules/pa-pal-plugins/module-pal-card/src/pal-loopback.c:268-339 | after connecting, the use case has a session if and only if it had one or its set-up succeeded, under the next number, and the other use case's session is untouched |
| Loopback.DisconnectsOnly | modules/pa-pal-plugins/module-pal-card/src/pal-loopback.c:386-413 | after disconnecting, that session and no other is gone |
| Loopback.CreateRunsExactlyIf | modules/pa-pal-plugins/module-pal-card/src/pal-loopback.c:427-478 | a created loopback runs if and only if it ran already or every PAL call succeeded |
| Loopback.DisconnectCloses | modules/pa-pal-plugins/module-pal-card/src/pal-loopback.c:386-397 | disconnecting closes exactly the use case's streams when no PAL call fails, and whatever fails never disturbs the other use case's |
| Loopback.DropClearsTheBooks | modules/pa-pal-plugins/module-pal-card/src/pal-loopback.c:203-229 | a dropped connection leaves counter 0, no session, no path and no handle |
| Loopback.SinkStarts | modules/pa-pal-plugins/module-pal-card/src/bt-a2dp-split.c:59-143 | starting the A2DP sink keeps what runs open and playing, for every outcome |
| Loopback.SinkStartReports | modules/pa-pal-plugins/module-pal-card/src/bt-a2dp-split.c:59-143 | starting the A2DP sink returns the code of the first call to fail and leaves open only a stream that started; one that failed to start is closed, but its handle is kept |
| Loopback.SinkStopReports | modules/pa-pal-plugins/module-pal-card/src/bt-a2dp-split.c:145-173 | stopping it returns the code of the first call to fail; its stream stays open if and only if the stop failed |
| Loopback.RateIsTheLastAccepted | modules/pa-pal-plugins/module-pal-card/src/pal-loopback.c:583-615 | over every sequence of requests, while hands-free is connected its rate is the last of 8000 or 16000 that was asked for in this connection, or else the rate it was connected with |
| Loopback.Module.BtConnect | modules/pa-pal-plugins/module-pal-card/src/pal-loopback.c:236-354 | the handler on the module's fields refines the specification function |
| Loopback.Module.BtDisconnect | modules/pa-pal-plugins/module-pal-card/src/pal-loopback.c:356-424 | likewise |
| Loopback.Module.RemoveSessions | modules/pa-pal-plugins/module-pal-card/src/pal-loopback.c:220-229 | the loop over the hashmap, in any order, removes every session, its path and its count |
| Loopback.Module.ConnectionDied | modules/pa-pal-plugins/module-pal-card/src/pal-loopback.c:188-233 | likewise for the whole drop |
| Loopback.Module.Create | modules/pa-pal-plugins/module-pal-card/src/pal-loopback.c:427-478 | likewise |
| Loopback.Module.Destroy | modules/pa-pal-plugins/module-pal-card/src/pal-loopback.c:835-884 | likewise |
| ConfigIndex.IndexAgrees | modules/pa-pal-plugins/module-pal-card/src/pal-config-parser.c:1029-1137 | after any lines, failing ones included: each profile's n_sinks and n_sources are the numbers of sinks and sources it is filed under, profiles are filed only where they share a port, and sinks and sources are numbered from 1 without gap or repetition |
| ConfigIndex.ProfilesFirstIsExact | modules/pa-pal-plugins/module-pal-card/src/pal-config-parser.c:1115-1133 | when profile port lists come first, a profile is filed under a sink or source if and only if they share a port |
| ConfigIndex.FiledExactlyIfMet | modules/pa-pal-plugins/module-pal-card/src/pal-config-parser.c:1029-1137 | after any lines in any order: a profile is filed under a sink or source if and only if some line listed for it a known port that the profile already had |
| ConfigIndex.FiledExactlyIfListedLater | modules/pa-pal-plugins/module-pal-card/src/pal-config-parser.c:1029-1137 | the same told from the lines alone: some line lists for the sink or source a port that an earlier line listed for the profile |
| ConfigIndex.KnownExactlyIfDeclared | modules/pa-pal-plugins/module-pal-card/src/pal-config-parser.c:1208-1235 | after any lines a port, profile, sink or source exists if and only if some line is about it whose callback looks for entries of its kind; the callback for port names declares no port |
| ConfigIndex.PortsAreThoseListed | modules/pa-pal-plugins/module-pal-card/src/pal-config-parser.c:1085-1112 | after any lines the ports of a profile, sink or source are those that the lines listed for it, each list up to its first port that no earlier line declared |
| ConfigIndex.ListSucceedsExactlyIfDeclared | modules/pa-pal-plugins/module-pal-card/src/pal-config-parser.c:1029-1107 | after any lines a list of ports returns 0 if and only if it is there, its section is a profile, sink, source or loopback, and each of its ports was declared by an earlier line; otherwise -1 |
| ConfigIndex.LineFiles | modules/pa-pal-plugins/module-pal-card/src/pal-config-parser.c:1115-1133 | one line files a profile under a sink or source exactly if it lists such a port, and never takes one out |
| ConfigIndex.LateProfilePortIsMissedExactlyIf | modules/pa-pal-plugins/module-pal-card/src/pal-config-parser.c:1055-1059 | a port added to a profile later keeps the index complete if and only if no sink or source without the profile already has the port |
| ConfigIndex.ListedUseCasePortsAreFiled | modules/pa-pal-plugins/module-pal-card/src/pal-config-parser.c:1085-1107 | a sink's or source's list files exactly its ports before the first unknown one, keeps the identifier, and returns 0 if all are known and -1 otherwise |
| ConfigIndex.ListedProfilePortsAreFiled | modules/pa-pal-plugins/module-pal-card/src/pal-config-parser.c:1085-1112 | likewise for a profile's list |
| ConfigIndex.UseCasePortKeeps | modules/pa-pal-plugins/module-pal-card/src/pal-config-parser.c:1110-1133 | filing one port under a sink or source keeps counters, containment, completeness and numbering on both sides |
| ConfigIndex.NumberedGrows | modules/pa-pal-plugins/module-pal-card/src/pal-config-parser.c:90-126 | the new entry's identifier, the map size after insertion, keeps identifiers distinct and dense |
| ConfigIndex.SectionsAreUnambiguous | modules/pa-pal-plugins/module-pal-card/src/pal-config-parser.c:1055-1076 | a section name matches one prefix only, and the entry's name is all that follows it |
| ConfigIndex.ConfigData.FileProfiles | modules/pa-pal-plugins/module-pal-card/src/pal-config-parser.c:1119-1132 | the inner loop, over the profiles in any order, files and counts exactly the new profiles that have the port |
| ConfigIndex.ConfigData.FileListedPorts | modules/pa-pal-plugins/module-pal-card/src/pal-config-parser.c:1087-1112 | the outer loop files the ports before the first unknown one as the specification says, and returns 0 if and only if all are known |
| ConfigIndex.ConfigData.ParsePortNames | modules/pa-pal-plugins/module-pal-card/src/pal-config-parser.c:1029-1137 | the callback refines the specification, and returns 0 if and only if the section is known, has ports and all of them are known |
| UeventScanner.Scan | modules/pa-pal-plugins/module-pal-card/src/pal-jack-hdmi-out.c:129-150 | the skip-ahead scan terminates within the message and finds the last occurrences that a test of every position finds |
| UeventScanner.LastIsTheLast | modules/pa-pal-plugins/module-pal-card/src/pal-jack-hdmi-out.c:132-146 | the naive scan's result is an occurrence with none after it, or there is none |
| UeventScanner.NoKeywordInside | modules/pa-pal-plugins/module-pal-card/src/pal-jack-hdmi-out.c:132-146 | no keyword begins inside another, which is why skipping is safe |
| UeventScanner.VerdictExactly | modules/pa-pal-plugins/module-pal-card/src/pal-jack-hdmi-out.c:152-159 | a message counts as plugged, or as unplugged, if and only if the last values in it say so and it is about the display switch |
| UeventScanner.AtoiReadsNumbers | modules/pa-pal-plugins/module-pal-card/src/pal-jack-hdmi-out.c:152-159 | a number printed in decimal, after any white space and with or without a sign, up to a character that is no digit, is read as that number |
| UeventScanner.AtoiOfNoNumberIsZero | modules/pa-pal-plugins/module-pal-card/src/pal-jack-hdmi-out.c:152-159 | text that begins with no number is read as 0, and counts as a value of 0 |
| UeventScanner.EdgesOnly | modules/pa-pal-plugins/module-pal-card/src/pal-jack-hdmi-out.c:161-183 | over any run from enabling on, no two consecutive availability events are equal, and each AVAILABLE, and nothing else, is at once followed by CONFIG_UPDATE; the jack is available if and only if that was the last report |
| UeventScanner.EveryChangeIsReported | modules/pa-pal-plugins/module-pal-card/src/pal-jack-hdmi-out.c:74-183 | whatever the state files say and whatever messages come: the status is what was told last, by the state files to begin with, and as many availability events have been reported as it has changed |
| UeventScanner.StatusIsTheLastNews | modules/pa-pal-plugins/module-pal-card/src/pal-jack-hdmi-out.c:161-183 | after any messages the status is what the last message with news said |
| UeventScanner.CheckKeeps | modules/pa-pal-plugins/module-pal-card/src/pal-jack-hdmi-out.c:74-110 | the check made when detection is enabled establishes the same invariant, whatever the state files say |
| UeventScanner.HdmiOutJack.IoCallback | modules/pa-pal-plugins/module-pal-card/src/pal-jack-hdmi-out.c:112-185 | the callback on the jack's field refines the specification function |
| PhraseWire.RoundTrip | modules/pa-pal-plugins/module-pal-voiceui-card/module-pal-voiceui-card.c:1064-1095 | what arrives equals what was sent if and only if it fits the receiver's arrays; otherwise the phrases that fit arrive in order with their identifiers, modes and confidence, each with exactly the prefix of levels that fits |
| PhraseWire.Send | utils/pa_pal_voiceui/pa_pal_voiceui.cpp:847-864 | from sender's structure to receiver's structure of the same capacities, identifiers, modes, confidence, users and levels are the same |
| PhraseWire.Decode | modules/pa-pal-plugins/module-pal-voiceui-card/module-pal-voiceui-card.c:1064-1095 | the two bounded loops read any well-typed message into exactly the capped phrases |
| PhraseWire.DecodePhrase | utils/pa_pal_voiceui/pa_pal_voiceui.cpp:419-443 | likewise for one phrase; the client's decoder of detections has the same loops |
| PhraseWire.Encode | modules/pa-pal-plugins/module-pal-voiceui-card/module-pal-voiceui-card.c:559-579 | the two loops write exactly the meaning of the structure, ignoring slots past the counts |
| PhraseWire.SendModel | utils/pa_pal_voiceui/pa_pal_voiceui.cpp:683-697 | loading a model: identifiers, modes and users survive the trip |
| PhraseWire.DecodeModel | modules/pa-pal-plugins/module-pal-voiceui-card/module-pal-voiceui-card.c:1292-1325 | the loading decoder reads any well-typed message into exactly the capped phrases |
| PhraseWire.ModelCapIsIdentityExactlyIf | modules/pa-pal-plugins/module-pal-voiceui-card/module-pal-voiceui-card.c:1292-1325 | nothing is cut from a model's phrases if and only if they fit |
| KeyValue.RoundTrip | modules/pa-pal-plugins/module-pal-card/src/pal-jack-external.c:235-269 | for every jack key and every value: the printed value comes back exactly if it is not empty and has no '='; the whole value exactly if it also fits the 34 characters; nothing exactly if only '=' was printed |
| KeyValue.ParsePrinted | modules/pa-pal-plugins/module-pal-card/src/pal-jack-external.c:235-269 | for every value the pair that comes back is the key and the first token of what was printed |
| KeyValue.LookupInvertsTable | modules/pa-pal-plugins/module-pal-card/src/pal-jack-external.c:219-232 | the lookup loop's result is the inverse of a table without repetitions; other names get -1 |
| KeyValue.ParseKeyIdx | utils/pa_bt_audio/pa_bt_audio_client_wrapper.c:314-327 | the loop computes that lookup |
| KeyValue.ParseKvPair | utils/pa_bt_audio/pa_bt_audio_client_wrapper.c:329-359 | the parser's branches compute the specification function |
| KeyValue.PairReadExactlyIf | utils/pa_bt_audio/pa_bt_audio_client_wrapper.c:329-359 | for every table without repetitions and every key: a pair is read if and only if its key is in the table and its value has a token; then it is that key and that token, and a key alone is no pair |
| KeyValue.SampleRateReachesTheServer | utils/pa_bt_audio/pa_bt_audio_client_wrapper.c:1170-1178 | in the HFP gateway use case, the one that prints to the jack, a client command hfp_sample_rate=v reaches the server as its sample-rate key with value v, for every non-empty v without '=' of at most 22 characters |
| KeyValue.AudioKeysAreDistinct | utils/pa_bt_audio/pa_bt_audio_client_wrapper.h:41-85 | the client's key table has no repetitions |
| BufferRates.BufferHoldsItsDurationExactlyIf | modules/pa-pal-plugins/module-pal-card/src/pal-sink.c:72-89 | the buffer holds floor(rate * duration / 1000) whole frames if and only if the product fits 32 bits, and fewer otherwise |
| BufferRates.SupportedBuffersAreExact | modules/pa-pal-plugins/module-pal-card/src/pal-source.c:57-77 | for every supported rate, stream type and up to 32 channels it holds exactly those frames and is not empty |
| BufferRates.FindNearestRate | modules/pa-pal-plugins/module-pal-card/src/pal-sink.c:120-134 | the loop returns the greatest supported rate not above the request, or 48000 below them all |
| BufferRates.NearestRateLaws | modules/pa-pal-plugins/module-pal-card/src/pal-source.c:89-103 | there is one such rate, it is supported, the search is idempotent and, from the lowest supported rate, monotone; it returns the request if and only if that is supported |

## Left out

- Classes for the protocols between threads: `ReadBufferServer`, `ReadBufferProtocol`, `ControlHandshake` and `ChunkPipeline` are step systems on values, because a method on an object runs without interleaving; they capture every order of the single accesses, not memory ordering weaker than that.
- recognition_started in the voice-UI session: it is written without the mutex and races with the thread, so the status of the stop is taken as any value, and the thread's own pal_stream_stop before StopBufferingDone is one step with it.
- Wrap-around of the voice-UI sequence number at 2^32: sequence numbers are unbounded.
- Creation of the voice-UI thread: the session starts with its thread created, so requests refused for a missing thread are not there.
- The timeout of the client's read is a step that may come at any moment before the reader takes the data; the application thread is one, and so is the dispatcher.
- Requests to a voice-UI session from any other D-Bus caller than its client.
- WriteChunk.SinkWriter.Write: does not model the wait for the control thread inside the loop, which `ControlHandshake` does, nor the cast of the chunk length to int; the chunk is shorter than 2^31 bytes.
- SinkLifecycle.PalSink.RestartPalSink: does not model the sample specification and media configuration that a restart writes, only whether the format and the channel map are accepted.
- The core's own sink state in `SinkLifecycle` is a parameter of each call, since PulseAudio's core decides it.
- A PAL close counts as closing whatever code it returns, in `SinkLifecycle`, `Hfp` and `Loopback`.
- The writes of the sink's loop in `SinkLifecycle` are counted at any moment and with any code; when the loop runs is the business of `ControlHandshake`, `WriteChunk` and `ChunkPipeline`.
- KeyValue.SampleRateReachesTheServer: the other use cases convert the rate with atoi and send it to the loopback, which is not modelled.
- Latency.LatencyRefines: beyond 64-bit overflow only the clock conversion is told (`ClockIsExactExactlyIf`) and that the result is not negative; PulseAudio's byte and time conversions are its public ones, with floor division.
- Loopback.Module.BtConnect: the structures of the two use cases are values in the module object rather than objects of their own; the D-Bus connection filter, use-case names other than the two, and the device connection state set by init_btsco and init_btsink are not modelled.
- Volume and mute requests of a loopback session, which change no handle.
- ConfigIndex.ConfigData.ParsePortNames: loopback sections change no index and are kept out of the state; the lists' ownership and frees are not modelled.
- UeventScanner.Scan: works on the bytes received; the socket and its buffer limit are parameters, and atoi is modelled for values that fit an int.
- PhraseWire.DecodeModel: claims nothing about locale and text, where the server keeps an address inside the message rather than the characters; the two capacities come from PalDefs.h, which is not part of this model.
- The acoustic-context (ACD) client and the ACD branches of the voice-UI module: mostly a copy, and the decoder has no clean round trip.
- KeyValue.ParseKvPair: the copies of the string, the async thread around the external jack and the D-Bus call are not modelled.
- BufferRates.FindNearestRate: sink and source have the same table and loop, and share one method here.
- Restart and free of a source, which read the inner structure as the outer one.
- D-Bus method tables and message iterators, volume conversion, logging, sysfs and file reads, format detection, sound-card waiting, and memory allocation: plumbing, or settled by reading one branch.
