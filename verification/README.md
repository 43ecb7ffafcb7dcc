# Verified model of the connection runtime and the wire codec

This Dafny project models the two hardest parts of the protocol library and proves what they
promise.

**The connection runtime.** The server keeps one flush deadline per client in a command queue, a
priority heap with lazy deletion and a token map; a tick serves a limited number of due clients and
moves each to the next point of its 20 ms grid, while each session keeps a 20 ms gate of its own.
Pumps run as jobs and delayed wakeups of a thread pool; a compare-and-swap flag, three counters and
a sequence of waits are to guarantee that ticks never overlap, that a stopped system is quiet and
that a running one keeps its pump. A session queues packets, batches them, compresses and encrypts
them, and switches its codec in mid-stream. A limiter bounds how many packets of a client get in.

**The wire codec.** Varints and zigzag, the seven-bits-a-byte bitset, strings, arrays, maps,
optionals and variants, batches of length-prefixed packets, and base64url.

How it is modelled:

- Code that updates fields or buffers step by step is a class or a method with loops
  (`FlushScheduler.Scheduler`, `IngressLimiter.SessionIngress`, `Sessions.Session`,
  `BinaryStreams.BinaryStream`, `ReadOnlyBinaryStreams.ReadOnlyBinaryStream`, the base64url loops).
  Each method is proved equal to a function of the old state; the properties of the system are
  lemmas about those functions.
- Concurrent code is a state machine with any number of threads. One move is one atomic operation
  of one thread, memory is sequentially consistent, and every property holds over all runs.
- The pool, the strands, compression, ciphers, the peer and the clock are parameters. Assumed of
  them: an accepted submission runs its task exactly once and a refused one never; decompression
  undoes compression; a cipher that is paired with the sender's decrypts what it sends and stays
  paired (`SessionCodec.Honest`). The clock readings of the limiter do not go back.

Results that are sharper than, or different from, what one would expect of the code:

- The limiter lets at most `2 * max - 1` packets through in any second, one fewer than two full
  windows, and this bound is attained.
- Passing flushes of a session are less than 40 ms plus one lateness apart (not two).
- A tick serves each guid at most once, but not always in the order of deadlines: a flush task of an
  earlier tick that finishes late puts its guid behind one with a later deadline.
- A running server can lose its flush pump although the pool refused nothing: a delayed wakeup may
  outlive `stop()`, claim the flag during a `start()` that then fails, and give it up only after
  the next `start()` has found it taken. While nothing is refused, a `start()` that finds the flag down never loses it.
- The client loses its pump in the same way: when a connect() races a disconnect() it can find the
  flag held by a job that only gives it up.
- A bitset of zero bits is written as one byte that no reader accepts; for every other size the
  codec is a bijection.
- A batch is read back exactly if every packet is shorter than 2^32 bytes, because the length is cast.
- A failed send of the outbound queue loses the whole batch, and nothing else in a connected session
  loses packets; without encryption it fails exactly when the peer refuses the frame.
- Base64url decoding accepts padding and stray trailing bits; the texts that are the encoding of
  what they decode to are exactly those without either.

`dfyconfig.toml` lists all files; `dafny verify dfyconfig.toml` checks the project.

## Model

| member | source | states |
|---|---|---|
| FlushClock.NextDueIsLeastGridPoint | src/sculk/protocol/connection/ServerNetworkSystem.cpp:46-58 | the next deadline lies strictly after now, is a point previousDue + 20k ms with k >= 1, and no earlier such point lies after now |
| FlushClock.NeverTwoRefusals | src/sculk/protocol/connection/Session.cpp:152-161 | along any scheduler-driven run of one session, from its creation on and with any ticks whose strand refuses the task in between, the gate never refuses two consecutive fires |
| FlushClock.RefusedStaysOnGrid | src/sculk/protocol/connection/ServerNetworkSystem.cpp:593-603 | a tick whose strand refuses the task moves the deadline further along the same 20 ms grid |
| FlushClock.PassingFiresAreClose | src/sculk/protocol/connection/Session.cpp:152-168 | if fires are at most `late` behind their deadlines and no tick is refused in between, the next passing fire after a passing one is one of the next two and comes less than 40 ms + late after it |
| FlushSchedule.ApplyRefinesPlainMap | src/sculk/protocol/connection/ServerNetworkSystem.cpp:357-372 | a Schedule overwrites and a Cancel removes exactly one guid of the plain map guid -> due that heap and token map stand for |
| FlushSchedule.RefinesPlainMap | src/sculk/protocol/connection/ServerNetworkSystem.cpp:350-372 | for every stream of commands heap and token map keep their invariant (distinct tokens below the counter, sorted by due and token) and stand for the plain map |
| FlushSchedule.LiveEntriesAreUnique | include/sculk/protocol/connection/ServerNetworkSystem.hpp:192-205 | each guid has at most one live entry, and the plain map is determined by heap and tokens |
| FlushSchedule.PopYieldsLeastLive | src/sculk/protocol/connection/ServerNetworkSystem.cpp:540-557 | popping a stale entry changes no deadline; popping a live one removes exactly that guid, which had the least deadline of all and came first by due and token |
| FlushSchedule.ClearedIsValid | src/sculk/protocol/connection/ServerNetworkSystem.cpp:335-343 | an emptied schedule whose tokens restart at 1 keeps the invariant and stands for the empty map |
| FlushScheduler.Scheduler.ApplyFlushScheduleCommandUnlocked | src/sculk/protocol/connection/ServerNetworkSystem.cpp:357-372 | the update in place is one application of the command |
| FlushScheduler.Scheduler.DrainFlushScheduleCommandsUnlocked | src/sculk/protocol/connection/ServerNetworkSystem.cpp:350-355 | empties the queue and applies its commands in order |
| FlushScheduler.Scheduler.ScheduleSessionFlushAt | src/sculk/protocol/connection/ServerNetworkSystem.cpp:303-319 | whether the queue takes the command or refuses it, the guid is afterwards due at that time and no other guid changes |
| FlushScheduler.Scheduler.CancelSessionFlush | src/sculk/protocol/connection/ServerNetworkSystem.cpp:321-333 | whether the queue takes the command or refuses it, exactly that guid is removed |
| FlushScheduler.Scheduler.ClearFlushSchedule | src/sculk/protocol/connection/ServerNetworkSystem.cpp:335-343 | afterwards nothing is queued or scheduled and the schedule stands for the empty map |
| FlushScheduler.Scheduler.FlushTickOnce | src/sculk/protocol/connection/ServerNetworkSystem.cpp:534-608 | the loop terminates for every interleaving of arriving commands and equals the tick whose properties - at most once, nobody forgotten, the grid, progress - are proved below |
| FlushTick.DrainMeasure | src/sculk/protocol/connection/ServerNetworkSystem.cpp:540-557 | due heap entries and due queued commands, counted together, stay the same when the queue is drained and shrink when a due entry is popped then: why a tick ends |
| FlushTick.TickServesInOrder | src/sculk/protocol/connection/ServerNetworkSystem.cpp:534-608 | if nothing that is due arrives after the first drain - no late flush task, no new session - a tick serves only guids that were live and due then, each once, in order of due and token |
| FlushTick.LateTaskComesOutOfOrder | src/sculk/protocol/connection/ServerNetworkSystem.cpp:574-585 | a flush task of an earlier tick that finishes late makes that order fail: a tick that serves the late guid behind a later deadline |
| FlushOnce.TickServesAtMost | src/sculk/protocol/connection/ServerNetworkSystem.cpp:534-608 | whatever other threads queue meanwhile, a tick serves a guid at most as often as it was live and due before plus the number of its due Schedules that arrive |
| FlushTasks.PlayConserves | src/sculk/protocol/connection/ServerNetworkSystem.cpp:574-601 | every flush task and every connecting session schedules at most once, and the tasks that a tick starts only for times after its instant: what arrives in a tick was under way before or began meanwhile |
| FlushOnce.TickKeepsOccurrences | src/sculk/protocol/connection/ServerNetworkSystem.cpp:534-608 | a tick makes no occurrence of a guid - live deadline, queued command or flush task - out of nothing |
| FlushOnce.TickServesOnce | src/sculk/protocol/connection/ServerNetworkSystem.cpp:534-608 | absent reconnects a tick serves at most its budget, each guid at most once, and only guids that were due or that a task under way or a connecting session schedules for a due time, late tasks of earlier ticks included; afterwards each guid is again scheduled or in flight at most once |
| FlushOnce.EveryTickServesOnce | src/sculk/protocol/connection/ServerNetworkSystem.cpp:534-608 | from the empty schedule on, in every run in which no client reconnects while anything of its old session is left, every tick serves each guid at most once |
| FlushOnce.ScheduledHasNoTask | src/sculk/protocol/connection/ServerNetworkSystem.cpp:574-585 | in such a run a scheduled guid has no flush task under way that could cancel it |
| FlushTick.UnderBudgetLeavesNothingDue | src/sculk/protocol/connection/ServerNetworkSystem.cpp:540-548 | a tick that stops before its budget is used up leaves no guid due |
| FlushTick.ProgressMeansEnqueued | src/sculk/protocol/connection/ServerNetworkSystem.cpp:535-607 | a tick reports progress exactly when some strand took a flush task |
| FlushReturns.TickForgetsNobody | src/sculk/protocol/connection/ServerNetworkSystem.cpp:559-601 | a tick forgets no connected session: a guid that was scheduled, in flight or begins to connect is so afterwards, unless it was dropped, its flush task found it unconnected, or it was served without a connected session |
| FlushReturns.NobodyIsForgotten | src/sculk/protocol/connection/ServerNetworkSystem.cpp:534-608 | the same over every run: a session that is not given up stays scheduled or in flight |
| FlushGrid.TickFollowsGrid | src/sculk/protocol/connection/ServerNetworkSystem.cpp:540-601 | in one tick a guid is served for its one deadline at most, and then wherever it is - in flight, queued or scheduled - it is for the least later point of its grid after the instant of the tick |
| FlushGrid.RunFollowsGrid | src/sculk/protocol/connection/ServerNetworkSystem.cpp:534-608 | in every run without a reconnect the successive serves of a guid are for exactly the deadlines that the clock arithmetic gives, one after the other, through finished tasks and refused ones |
| FlushGrid.RunDrivesTheGate | src/sculk/protocol/connection/ServerNetworkSystem.cpp:767-768 | a session that begins to connect is from then on, in every run without a reconnect, driven as the theorems about its 20 ms gate assume |
| FlushGrid.GivenUpIsGone | src/sculk/protocol/connection/ServerNetworkSystem.cpp:561-572 | a guid that is served without a connected session leaves no token, no live entry and no task behind |
| FlushGrid.TickKeepsGone | src/sculk/protocol/connection/ServerNetworkSystem.cpp:534-608 | a guid of which nothing is left is not served again before it connects |
| FlushGrid.CancelledIsUnscheduled | src/sculk/protocol/connection/ServerNetworkSystem.cpp:580-585 | a guid that is dropped, or whose flush task finds its session gone, has no live entry afterwards |
| FlushFairness.ServeAdvances | src/sculk/protocol/connection/ServerNetworkSystem.cpp:574-601 | a guid served at or after the deadline of a waiting entry comes back strictly behind that entry, by the task on its strand or by the tick itself: one rival less |
| FlushFairness.TickAdvances | src/sculk/protocol/connection/ServerNetworkSystem.cpp:534-608 | a tick at or after the deadline of a waiting entry serves it or uses up a whole budget of its rivals, whatever flush tasks finish and sessions connect meanwhile |
| FlushFairness.ServedWithinTicks | src/sculk/protocol/connection/ServerNetworkSystem.cpp:534-608 | with budgets that differ from tick to tick, a due entry whose guid nobody cancels or reconnects is served once the budgets add up to more than its rivals: the guids ahead of it and the tasks under way that will schedule an earlier time |
| FlushFairness.NoStarvation | src/sculk/protocol/connection/ServerNetworkSystem.cpp:534-608 | with n guids scheduled - queued commands included - or in flight and budget B, it is served within floor((n - 1) / B) + 1 ticks; where the commands of other threads come from is part of the run, not an assumption on their deadlines |
| IngressLimiter.SessionIngress.Admit | src/sculk/protocol/connection/ServerNetworkSystem.cpp:827-876 | too large exactly beyond the byte limit, and then the window stays as it was; too many exactly if the window, reopened after a second, is full; else admitted and counted |
| IngressLimiter.NeverOverAllowance | src/sculk/protocol/connection/ServerNetworkSystem.cpp:847-876 | from any window state, at most the allowance of that state gets through in a given second |
| IngressLimiter.SlidingWindowBound | src/sculk/protocol/connection/ServerNetworkSystem.cpp:847-876 | over every run any half-open second contains at most 2 * max - 1 packets that got past the limiter |
| IngressLimiter.SlidingWindowBoundIsAttained | src/sculk/protocol/connection/ServerNetworkSystem.cpp:847-876 | for every limit there is a run and a second with exactly 2 * max - 1 of them |
| PumpCore.StepKeepsBooks | src/sculk/protocol/connection/ClientNetworkSystem.cpp:285-336 | each atomic operation of scheduling, job and wakeup moves flag and counters by exactly what it adds to or takes from owners, jobs and wakeups |
| PumpCore.StepKeepsCarrying | src/sculk/protocol/connection/ClientNetworkSystem.cpp:285-336 | for client and server, while the flags are up and nothing is refused, an agent that keeps the pump going goes on doing so or hands it on, unless it finds the flag up |
| PumpCore.WakeupsFollowIdleTicks | src/sculk/protocol/connection/ClientNetworkSystem.cpp:306-319 | after a tick with progress the pump goes on at once; a delayed wakeup is used only after a tick without |
| PumpCore.TestsGuardTheTick | src/sculk/protocol/connection/ClientNetworkSystem.cpp:285-304 | a tick, and the attempt to claim the pump, come only after every flag was read up |
| ClientPump.RunKeepsBooks | src/sculk/protocol/connection/ClientNetworkSystem.cpp:285-336 | in every run the scheduled flag is up exactly when there is one owner, and the counters count jobs and wakeups, also through refused submissions |
| ClientPump.TicksNeverOverlap | src/sculk/protocol/connection/ClientNetworkSystem.cpp:285-320 | two executions of ioTickOnce never overlap, whatever wakeups, jobs and connects race |
| ClientPump.StaysCleared | src/sculk/protocol/connection/ClientNetworkSystem.cpp:70-115 | with the active flag down and no connect(), wakeups past the tests, once gone, stay gone, and jobs, once gone after them, stay gone: the order of the two waits |
| ClientPump.DisconnectQuiesces | src/sculk/protocol/connection/ClientNetworkSystem.cpp:106-115 | once stop() or disconnect() has cleared the flag and seen no wakeup and then no job, no tick runs or can start and the flag is down, until the next connect() |
| ClientPumpOrder.JobsThenWakeupsIsNotEnough | src/sculk/protocol/connection/ClientNetworkSystem.cpp:106-109 | in the other order the waits would not do: a run in which, after the flag is cleared, no job and then no wakeup is seen, and yet a job is pending and holds the flag |
| ClientPumpAlive.PumpIsNeverLost | src/sculk/protocol/connection/ClientNetworkSystem.cpp:285-336 | in every run: after a connect() that found the scheduled flag down, and as long as the client runs and is active and the pool refuses nothing, a job or a wakeup is pending whenever no connect() is under way |
| ClientPumpAlive.StaysAlive | src/sculk/protocol/connection/ClientNetworkSystem.cpp:98-101 | under the same conditions, also while connects are under way, the call has yet to make its attempt or somebody carries the pump |
| ClientPumpLoss.RefusalLosesThePump | src/sculk/protocol/connection/ClientNetworkSystem.cpp:295-297 | without the last condition: a running, active client without a pump after one refused submission |
| ClientPumpLoss.ConnectDuringDisconnectLosesThePump | src/sculk/protocol/connection/ClientNetworkSystem.cpp:98-109 | without the first: a connect() during a disconnect() finds the flag held by a job that gives up, and the running, active client has no pump |
| ClientPumpLoss.RestartLosesThePump | src/sculk/protocol/connection/ClientNetworkSystem.cpp:70-77 | without the second: a start() between the two stores of a stop() leaves a running, active client without a pump |
| ServerPump.PacketTaskBooks | src/sculk/protocol/connection/ServerNetworkSystem.cpp:813-955 | each of the six exits of processSessionPacket takes the task counter down by an operation of its own, and nothing else in it does |
| ServerPump.WorkTaskBooks | src/sculk/protocol/connection/ServerNetworkSystem.cpp:574-601 | every operation of ticks, strand tasks and the I/O thread, the failed enqueues included, moves the task counter as it moves the tasks it counts |
| ServerPump.RunKeepsBooks | src/sculk/protocol/connection/ServerNetworkSystem.cpp:787-955 | in every run the task counter equals the counted strand tasks that are queued, running or about to be queued, through all exits of processSessionPacket; likewise the flush jobs, wakeups and flag |
| ServerPump.TicksNeverOverlap | src/sculk/protocol/connection/ServerNetworkSystem.cpp:627-662 | two executions of flushTickOnce never overlap |
| ServerShutdown.RunKeepsLocated | src/sculk/protocol/connection/ServerNetworkSystem.cpp:250-270 | in every run the position of start() or stop() determines which threads, wakeups, jobs and tasks may still exist |
| ServerShutdown.StopQuiesces | src/sculk/protocol/connection/ServerNetworkSystem.cpp:250-262 | after the join and the three waits of stop() no I/O thread, job, tick or counted task exists or can start and the flag is down, until the next start() |
| ServerShutdown.NoScheduleAfterStop | src/sculk/protocol/connection/ServerNetworkSystem.cpp:257-262 | between the end of the waits and the next start() no Schedule command is produced |
| ServerShutdown.PumpIsNeverLost | src/sculk/protocol/connection/ServerNetworkSystem.cpp:627-678 | in every run a started server has a flush job or a flush wakeup pending, unless the pool refused a pump submission or start() found the scheduled flag up when it was entered |
| ServerShutdown.StopLeavesTheFlagDown | src/sculk/protocol/connection/ServerNetworkSystem.cpp:250-262 | a start() that follows a completed stop() always finds the flag down |
| ServerShutdown.IoThreadStays | src/sculk/protocol/connection/ServerNetworkSystem.cpp:618-625 | in every run the I/O thread of a started server goes on receiving until stop() is entered |
| ServerPumpLoss.RefusalLosesThePump | src/sculk/protocol/connection/ServerNetworkSystem.cpp:637-639 | the first exception is real: a reachable running server without a pump after one refusal |
| ServerPumpLoss.StopLeavesAWakeup | src/sculk/protocol/connection/ServerNetworkSystem.cpp:250-262 | a reachable state in which stop() has returned and a delayed wakeup is still pending |
| ServerPumpLoss.FailedStartLosesThePump | src/sculk/protocol/connection/ServerNetworkSystem.cpp:116-143 | the second exception is real: no submission refused, a start() failed with the flag up, and the next start() ends with a running server that has no pump |
| BatchFraming.UnbatchAcceptsExactly | src/sculk/protocol/connection/Session.cpp:519-541 | the parser accepts a buffer as given packets if and only if the buffer is those packets, each behind some LEB128 header of at most five bytes for its length, and not a byte more |
| BatchFraming.BatchRoundTrip | src/sculk/protocol/connection/Session.cpp:423-429 | a batch is parsed to its packets, empty ones included, if and only if all are shorter than 2^32 bytes |
| SessionCodec.CipherRoundTrip | src/sculk/protocol/connection/Session.cpp:458-464 | paired ciphers cancel, do nothing when encryption is off, and stay paired |
| SessionCodec.HeaderRoundTrip | src/sculk/protocol/connection/Session.cpp:434-456 | with compression on or off on both sides the receiver undoes the compression header for any algorithm and threshold, negative ones included, and refuses unknown algorithms |
| SessionCodec.ThresholdDecides | src/sculk/protocol/connection/Session.cpp:235-238 | a batch is compressed exactly when the threshold is not negative and at most the batch's size: the cast of a negative threshold turns compression off |
| SessionCodec.SerializeRoundTrip | src/sculk/protocol/connection/Session.cpp:423-542 | deserialize undoes serialize if and only if every packet is shorter than 2^32 bytes and the algorithm in use is known; the codecs agree afterwards |
| Sessions.WriteBatch | src/sculk/protocol/connection/Session.cpp:423-429 | the writing loop appends exactly the framed batch |
| Sessions.ReadPackets | src/sculk/protocol/connection/Session.cpp:519-541 | the reading loop terminates on every buffer and returns what the parser specification returns, errors included |
| Sessions.Session.SendPacket | src/sculk/protocol/connection/Session.cpp:83-106 | queues behind what is queued while connected, else refuses and changes nothing |
| Sessions.Session.SendPacketImmediately | src/sculk/protocol/connection/Session.cpp:108-126 | sends a batch of one past the queue, which stays as it was |
| Sessions.Session.Flush | src/sculk/protocol/connection/Session.cpp:128-150 | the whole new state of a flush: gate, queue, codec and what was handed to the peer |
| Sessions.Session.FlushIfDue | src/sculk/protocol/connection/Session.cpp:152-179 | before the gate nothing changes; from the gate on the gate closes again and the queue is drained: the new state is the one whose gate is proved below |
| SessionGate.ClosedForTwentyMilliseconds | src/sculk/protocol/connection/Session.cpp:152-168 | after a flush, explicit or by a call that was not refused, and until the next such flush, every flushIfDue within 20 ms returns false and leaves queue, codec and wire as they were, and every later one takes out the queue |
| SessionGate.ClosedAfterCreation | src/sculk/protocol/connection/Session.cpp:46-50 | the same for a new session from its creation on |
| SessionGate.CallPassesExactly | src/sculk/protocol/connection/Session.cpp:152-168 | in a history without explicit flushes the session refuses exactly the calls that do not pass the gate of the clock arithmetic |
| SessionGate.NeverRefusesTwice | src/sculk/protocol/connection/Session.cpp:152-168 | driven by the scheduler alone, of two consecutive flushIfDue calls one takes out the queue |
| Sessions.Session.DequeueOutboundPackets | src/sculk/protocol/connection/Session.cpp:181-196 | the loop takes the whole queue in order, or reports that there is nothing to send and leaves it |
| Sessions.Session.SetCompressed | src/sculk/protocol/connection/Session.cpp:64-71 | drains under the old codec, then switches |
| Sessions.Session.SetEncrypted | src/sculk/protocol/connection/Session.cpp:75-81 | drains under the old codec, then starts the new cipher |
| Sessions.Session.SendBatchedBufferImmediately | src/sculk/protocol/connection/Session.cpp:226-285 | compression, encryption, the refusal of an empty result and the frame byte; a failure puts nothing on the wire |
| Sessions.Session.ReceivePacket | src/sculk/protocol/connection/Session.cpp:215-224 | takes the front of the inbound queue if there is one |
| Sessions.Session.EnqueueInboundPacket | src/sculk/protocol/connection/Session.cpp:411-421 | appends exactly while connected |
| Sessions.Session.Disconnect | src/sculk/protocol/connection/Session.cpp:380-407 | run alone: both queues empty, flag down, and a close request exactly if the flag was up and a peer is attached |
| Sessions.Session.DetachPeer | src/sculk/protocol/connection/Session.cpp:409 | takes the peer away and changes nothing else |
| Sessions.Session.SerializeBatchedPackets | src/sculk/protocol/connection/Session.cpp:423-466 | result and cipher state are those of the round-trip theorem's sender |
| Sessions.Session.DeserializeBatchPackets | src/sculk/protocol/connection/Session.cpp:468-542 | result and cipher state, on every error path too, are those of the round-trip theorem's receiver |
| SessionHistory.Conservation | src/sculk/protocol/connection/Session.cpp:64-213 | for every history of sends, immediate sends, flushes and codec switches in which no send fails that matters, a receiver that switches at the same frames decodes the whole wire, and decoded packets followed by the queue are what was accepted, in order |
| SessionHistory.NothingLostExactly | src/sculk/protocol/connection/Session.cpp:128-213 | over every history, encrypted or not: what the queue put on the wire followed by the queue is what was accepted, in order, if and only if every batch taken out of the queue could be encoded and was taken by the peer |
| SessionHistory.PeerAloneDecides | src/sculk/protocol/connection/Session.cpp:226-285 | without a cipher a send fails exactly when the peer refuses it: no batch encodes to nothing |
| SessionHistory.ConservationExactly | src/sculk/protocol/connection/Session.cpp:128-213 | without encryption the whole wire is always decoded, and decoded packets followed by the queue are what was accepted if and only if the peer took every batch that a flush or switch took out of the queue |
| SessionHistory.DetachedSendsNothing | src/sculk/protocol/connection/Session.cpp:409 | once the peer is detached nothing is sent, and what is still accepted stays queued in order |
| SessionHistory.LastSwitchDecides | src/sculk/protocol/connection/Session.cpp:64-71 | after a SetCompressed and until the next, a batch goes out under its algorithm exactly if it is as long as its threshold, and a negative threshold turns compression off |
| SessionHistory.EpochSeparation | src/sculk/protocol/connection/Session.cpp:64-81 | at every codec switch the wire is cut in two: the queue's part before it is exactly what was accepted before the switch, its part after it was accepted after the switch |
| SessionHistory.FailedSendLosesTheBatch | src/sculk/protocol/connection/Session.cpp:128-150 | after a failed send of the queue its packets are neither queued nor on the wire |
| SessionTeardown.RunKeepsInvariant | src/sculk/protocol/connection/Session.cpp:380-421 | in every interleaving each lock has one holder, and a disconnect past its drain leaves no thread that can still push |
| SessionTeardown.DisconnectIsFinal | src/sculk/protocol/connection/Session.cpp:380-398 | under every interleaving, once a disconnect has returned both queues are empty and stay empty |
| SessionTeardown.ClosesOnce | src/sculk/protocol/connection/Session.cpp:400-407 | under every interleaving CloseConnection is requested at most once, and with the peer attached and no disconnect under way exactly if the session was disconnected |
| Leb128.LebFits | include/sculk/protocol/utility/BinaryStream.hpp:94-114 | 32-bit values take at most 5 bytes and 64-bit values at most 10 |
| Leb128.LebIsShortest | include/sculk/protocol/utility/BinaryStream.hpp:94-114 | no LEB128 string (section 7.6 of DWARF 5) for a value is shorter than the written one, and no other is as short |
| Leb128.LebIsPrefixFree | include/sculk/protocol/utility/BinaryStream.hpp:94-114 | no LEB128 string is a proper prefix of another |
| Leb128.ReadLebAccepts | include/sculk/protocol/utility/ReadOnlyBinaryStream.hpp:173-229 | the readers succeed exactly on LEB128 strings of at most 5 or 10 bytes whose value fits, also longer ones than needed, and return that value |
| Leb128.LebRoundTrip | include/sculk/protocol/utility/BinaryStream.hpp:94-114 | a written value is read back, whatever follows |
| Leb128.ZigZagIsABijection | include/sculk/protocol/utility/BinaryStream.hpp:116-130 | zigzag maps the signed range one to one onto the unsigned range |
| BinaryStreams.BinaryStream.WriteUnsignedVarInt | include/sculk/protocol/utility/BinaryStream.hpp:94-103 | the loop appends the shortest LEB128 string |
| BinaryStreams.BinaryStream.WriteUnsignedVarInt64 | include/sculk/protocol/utility/BinaryStream.hpp:105-114 | the loop appends the shortest LEB128 string |
| BinaryStreams.BinaryStream.WriteVarInt | include/sculk/protocol/utility/BinaryStream.hpp:116-122 | shift and complement are zigzag over all of int32 |
| BinaryStreams.BinaryStream.WriteVarInt64 | include/sculk/protocol/utility/BinaryStream.hpp:124-130 | shift and complement are zigzag over all of int64 |
| BinaryStreams.BinaryStream.WriteString | include/sculk/protocol/utility/BinaryStream.hpp:137-142 | the length modulo 2^32, then all bytes |
| BinaryStreams.BinaryStream.WriteBitset | include/sculk/protocol/utility/BinaryStream.hpp:214-249 | the bit loops append exactly the bitset's encoding, for every size |
| BinaryStreams.BinaryStream.WriteValue | include/sculk/protocol/utility/BinaryStream.hpp:155-273 | writers composed by any schema, with any leaf and prefix callbacks, append exactly what the round-trip theorem reads back |
| ReadOnlyBinaryStreams.ReadOnlyBinaryStream.ReadUnsignedVarInt | include/sculk/protocol/utility/ReadOnlyBinaryStream.hpp:173-200 | the loop with its shift, mask and overflow tests reads exactly the accepted LEB128 strings, whatever the overflow flag says, and raises it on failure |
| ReadOnlyBinaryStreams.ReadOnlyBinaryStream.ReadUnsignedVarInt64 | include/sculk/protocol/utility/ReadOnlyBinaryStream.hpp:202-229 | the same for 64 bits and ten bytes |
| ReadOnlyBinaryStreams.ReadOnlyBinaryStream.ReadVarInt | include/sculk/protocol/utility/ReadOnlyBinaryStream.hpp:231-238 | the complement of the halved word, reinterpreted as signed, is the zigzag inverse |
| ReadOnlyBinaryStreams.ReadOnlyBinaryStream.ReadVarInt64 | include/sculk/protocol/utility/ReadOnlyBinaryStream.hpp:240-247 | the same for 64 bits |
| ReadOnlyBinaryStreams.ReadOnlyBinaryStream.ReadFixedWidth | include/sculk/protocol/utility/ReadOnlyBinaryStream.hpp:44-66 | little-endian, refused once the stream has overflowed or when too few bytes are left, without moving |
| ReadOnlyBinaryStreams.ReadOnlyBinaryStream.ReadRawBytes | include/sculk/protocol/utility/ReadOnlyBinaryStream.hpp:277-298 | the next bytes exactly if that many are left, whatever the overflow flag says; refused and not moved otherwise |
| WireAccepts.RawAccepts | include/sculk/protocol/utility/ReadOnlyBinaryStream.hpp:277-298 | a raw read of n bytes gives v and leaves rest if and only if the buffer is v and then rest with v of n bytes; it fails if and only if fewer than n are left |
| WireAccepts.StringAccepts | include/sculk/protocol/utility/ReadOnlyBinaryStream.hpp:257-264 | a string is read as v if and only if the buffer is some LEB128 header of at most five bytes for its length, then v, then the rest |
| WireAccepts.TruncatedStringIsRefused | include/sculk/protocol/utility/ReadOnlyBinaryStream.hpp:288-293 | a string whose bytes are not all there is refused |
| WireAccepts.LongStringAccepts | include/sculk/protocol/utility/ReadOnlyBinaryStream.hpp:266-275 | a long string is read as v if and only if the stream has not overflowed, v is shorter than 2^31 bytes and the buffer is its length in four bytes, v and the rest |
| WireAccepts.NegativeLengthIsRefused | include/sculk/protocol/utility/ReadOnlyBinaryStream.hpp:271-273 | a length whose sign bit is set is refused whatever follows |
| WireAccepts.FixedAccepts | include/sculk/protocol/utility/ReadOnlyBinaryStream.hpp:44-66 | a fixed-width read succeeds if and only if the stream has not overflowed and the buffer begins with the little-endian bytes of the result |
| WireAccepts.LittleEndianDigit | include/sculk/protocol/utility/BinaryStream.hpp:41-45 | byte k of a fixed-width number is its k-th byte from the least significant end |
| WireAccepts.VarAccepts | include/sculk/protocol/utility/ReadOnlyBinaryStream.hpp:173-229 | a varint is read as v if and only if the buffer is some LEB128 string for v, within length and range, and the rest |
| WireAccepts.VarUIntsAccept | include/sculk/protocol/utility/ReadOnlyBinaryStream.hpp:173-229 | the two readers accept at most five bytes below 2^32 and at most ten bytes below 2^64 |
| WireAccepts.OverflowRefuses | include/sculk/protocol/utility/ReadOnlyBinaryStream.hpp:46-48 | on an overflowed stream fixed-width numbers, long strings and bitsets are refused, varints and strings are not |
| WireAccepts.VariantAccepts | include/sculk/protocol/utility/ReadOnlyBinaryStream.hpp:472-490 | an index that names no alternative is refused, and what is read is of the alternative named |
| WireAccepts.FirstKeyWins | include/sculk/protocol/utility/ReadOnlyBinaryStream.hpp:352-368 | a map that was read has distinct keys, and of equal keys the first keeps its value |
| WireAccepts.TagsOnTheWire | include/sculk/protocol/utility/BinaryStream.hpp:199-212 | an optional is 0, or 1 and its value; a boolean is 0 or 1 |
| WireAccepts.TagsAccepted | include/sculk/protocol/utility/ReadOnlyBinaryStream.hpp:377-401 | the readers take any byte but 0 for 1 |
| WireAccepts.EntriesInOrder | include/sculk/protocol/utility/BinaryStream.hpp:177-191 | entries come in the order of the container, each key in front of its value |
| WireAccepts.ItemsInOrder | include/sculk/protocol/utility/BinaryStream.hpp:156-169 | items come in the order of the array |
| ReadOnlyBinaryStreams.ReadOnlyBinaryStream.ReadBytes | include/sculk/protocol/utility/ReadOnlyBinaryStream.hpp:109-127 | as the raw read, but refused once the stream has overflowed, even for no bytes |
| ReadOnlyBinaryStreams.ReadOnlyBinaryStream.ReadLongText | include/sculk/protocol/utility/ReadOnlyBinaryStream.hpp:266-275 | a signed 32-bit length, refused when negative, then that many bytes |
| ReadOnlyBinaryStreams.ReadOnlyBinaryStream.ReadBits | include/sculk/protocol/utility/ReadOnlyBinaryStream.hpp:403-457 | the loop with its four error tests accepts exactly what the bitset specification accepts, and sets exactly those bits |
| ReadOnlyBinaryStreams.ChunkBeforeOthers | include/sculk/protocol/utility/ReadOnlyBinaryStream.hpp:417-457 | a byte that says more follows leaves bits to be read, so the error after the loop is reached for a set of no bits only |
| ReadOnlyBinaryStreams.ReadOnlyBinaryStream.ReadValue | include/sculk/protocol/utility/ReadOnlyBinaryStream.hpp:257-499 | readers composed by any schema, with any leaf and prefix callbacks, return exactly what the specification reads and leave the rest, or fail and keep a raised overflow flag |
| Bitset.ReadsWhatWasWritten | include/sculk/protocol/utility/BinaryStream.hpp:214-249 | reading a written set of any positive size gives its bits back and leaves what follows |
| Bitset.AcceptsOnlyWhatIsWritten | include/sculk/protocol/utility/ReadOnlyBinaryStream.hpp:403-457 | whatever the reader accepts is exactly what the writer produces for its result |
| Bitset.BitsetRoundTrip | include/sculk/protocol/utility/ReadOnlyBinaryStream.hpp:403-457 | the round trip holds if and only if the set has at least one bit |
| WireRoundTrip.RoundTrip | include/sculk/protocol/utility/ReadOnlyBinaryStream.hpp:300-499 | for every schema of primitives, strings, bitsets, arrays, maps with distinct keys, optionals, variants, records and any other leaf and prefix callbacks: if each callback reads back what it wrote, reading what was written gives the value and leaves the rest |
| WireFormat.VarIntIsFaithful | include/sculk/protocol/utility/ReadOnlyBinaryStream.hpp:328-335 | the default prefix is the 32-bit varint pair, which reads back what it wrote |
| WirePrefix.ReadIsExact | include/sculk/protocol/utility/ReadOnlyBinaryStream.hpp:257-499 | for every schema whose callbacks take exactly the bytes they need, what is read depends on the bytes taken alone and is refused if they are cut short |
| WirePrefix.NothingCutShort | include/sculk/protocol/utility/ReadOnlyBinaryStream.hpp:257-499 | after a successful read no proper prefix of the bytes it took reads as anything, and they alone, or followed by anything, read as the same value |
| WireRoundTrip.EntriesRoundTrip | include/sculk/protocol/utility/ReadOnlyBinaryStream.hpp:337-374 | entries whose keys all differ are all emplaced, none is dropped by the container |
| WireRoundTrip.VariantRoundTrip | include/sculk/protocol/utility/Variant.hpp:18-39 | a written index selects the alternative it was written for |
| Base64Url.LookupsAreInverse | src/sculk/protocol/ssl/Base64Url.hpp:18-34 | the two tables are inverse to each other, and 64 stands for every other character |
| Base64Url.Encode | src/sculk/protocol/ssl/Base64Url.hpp:72-89 | although the 32-bit accumulator wraps, the output has ceil(4n / 3) letters and letter m stands for bits 6m to 6m + 5 of the input (section 5 of RFC 4648, no padding) |
| Base64Url.GetDecodeLength | src/sculk/protocol/ssl/Base64Url.hpp:57-70 | three quarters, rounded down, of the characters that are no padding, the padding counted modulo 256; what this means for padded texts is proved below |
| Base64Url.Decode | src/sculk/protocol/ssl/Base64Url.hpp:98-136 | every byte is the one its four characters stand for, and the shrinking resize at the end is never taken, for any input |
| Base64Url.HasValidPadding | src/sculk/protocol/ssl/Base64Url.hpp:36-49 | true exactly if padding stands only at the end, at most twice |
| Base64Url.DecodeChecked | src/sculk/protocol/ssl/Base64Url.hpp:138-184 | both overloads: the first reason to refuse, in the order of the checks, or the decoded bytes |
| Base64Url.EncodedIsDecoded | src/sculk/protocol/ssl/Base64Url.hpp:138-158 | an encoding is accepted unless it is empty and decodes to exactly the encoded bytes; its decode length is the data's, and any other expected length is refused |
| Base64Url.LengthOfPadded | src/sculk/protocol/ssl/Base64Url.hpp:57-70 | letters followed by n padding characters decode to three quarters of the letters if n is below 256; beyond that each 256 padding characters count as letters |
| Base64Url.PaddingIsTransparent | src/sculk/protocol/ssl/Base64Url.hpp:98-158 | every accepted text is letters and at most two padding characters, has three quarters of the letters as decoded length, and decodes to what the letters alone decode to |
| Base64Url.PaddedEncodingIsDecoded | src/sculk/protocol/ssl/Base64Url.hpp:138-184 | the encoding of any non-empty data followed by its padding of section 4 of RFC 4648 is accepted, with exactly the length of the data as expected length, and decodes to the data |
| Base64Url.AcceptedIsCanonical | src/sculk/protocol/ssl/Base64Url.hpp:98-158 | an accepted text is the encoding of what it decodes to if and only if it has no padding and no stray trailing bits |

## Left out

- FlushScheduler.Scheduler.FlushTickOnce: commands of other threads arrive in one sequence, in any interleaving; the queue that orders per producer only is not modelled beyond that, and a command that the tick itself submits is always taken by the queue.
- FlushSchedule.RefinesPlainMap: the 64-bit token counter is unbounded.
- FlushClock.PassingFiresAreClose: gives no bound across ticks whose strand refuses the flush task, because each of them may be late anew.
- FlushFairness.NoStarvation: until it is served, the entry's own guid is not cancelled or reconnected, and no task of an old session of it is under way, because such a task cancels the flush of a new session with the same guid; other guids may do so at any time.
- FlushGrid.RunFollowsGrid: assumes that the guid does not connect again in the run.
- FlushOnce.TickServesOnce: assumes that no guid reconnects while anything of its old session is left, because then it can be scheduled twice.
- ServerPump.RunKeepsBooks: the pending counters are unbounded integers, a session's strand runs its tasks in any order (which only adds interleavings), and `disconnectClient` and user callbacks are not agents: they add Cancel commands only.
- ServerShutdown.StopQuiesces: `start` and `stop` are called by one owner, one call at a time; no callback re-enters them.
- ClientPump.DisconnectQuiesces: a stray delayed wakeup that has not passed its tests may outlive the call; the client's own copy of the ingress limiter is not modelled separately.
- SessionHistory.Conservation: operations of one session follow one another; batches that a concurrent flush has taken out of the queue but not sent yet are not ordered against later ones. The conversion of a frame's size to int is not modelled.
- SessionHistory.ConservationExactly: says what the receiver decodes without encryption only, because what a cipher makes of later messages after one was lost is up to the cipher; what was put on the wire is covered with encryption too.
- SessionTeardown.DisconnectIsFinal: what a flush does with a batch after taking it out of the queue (it tests the flag again and sends) is outside the queues and is one move that touches neither.
- WireRoundTrip.RoundTrip: counts beyond the range of the prefix type are cast by the writer and excluded, and negative counts of a signed prefix are not modelled; a map's entries are in the container's order of iteration; a tagged variant's index is taken to fit its enum; a bool byte other than 0 and 1 is read as true.
- Base64Url.Encode: string sizes are unbounded integers.
- Clock readings are unbounded integers; overflow of time points is not modelled.
- RakNet, sockets, announcements and network statistics: only "a message was received", "Send returned" and "CloseConnection was requested" appear.
- OpenSSL, key fetching, JSON reflection, login and certificates: thin over libraries that are not part of this model.
- ThreadPool, TaskStrand, AtomicSharedPtr, CryptoManager, zlib and snappy: not part of this model; the assumptions above stand for them.
- Packet headers, enums, packet classes and NBT: field lists without a deep property.
- Floats, big-endian integers, UUIDs and error texts: they would only add easy members.
