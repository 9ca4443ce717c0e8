# genbuf, verified

genbuf is a store-and-forward line pipeline. Byte sources fill per-source ring
buffers that cut bytes into lines; the lines go into a shared queue; a logger
thread delivers them to one destination and spills to a backlog file while
delivery fails. Its promise is that lines are neither lost, nor duplicated, nor
reordered. This project models that code as it is written and proves how far
the promise holds: where lines can get lost, doubled or mangled, the exact
condition is proved, and a concrete run. What the model does not cover is listed
at the end.

`dafny verify dfyconfig.toml` checks everything.

## How it is organised

| file | content |
|---|---|
| `Lines.dfy` | byte strings, splitting into lines, the round trip of writing and reading lines; subsequences |
| `InputBuffer.dfy` | the ring buffer: its layout on values, and the class over an array |
| `Framing.dfy` | the framing state machine of one source, and what it reports over whole runs |
| `InputHandler.dfy` | the class whose read is proved equal to a framing step |
| `MessageQueue.dfy` | the chunked queue: what a chunk list stands for, and the linked class |
| `QueueProtocol.dfy` | any number of threads on the queue, lock and semaphore steps apart; their steps on the linked queue |
| `LoggerModel.dfy`, `LoggerProofs.dfy`, `LoggerTheorems.dfy` | the logger, its backlog and the reader's pushes as a step system; its invariant; conservation, progress, any number of restarts |
| `LoggerHandles.dfy` | when the logger appends to a backlog that it is reading |
| `LoggerRuns.dfy` | concrete runs in which the logger does harm |
| `Logger.dfy` | the logger thread as a class with loops, proved to execute that step system on a byte file |
| `Delivery.dfy` | the delivery loop on values, and the output handler class that follows it |
| `Reader.dfy` | the reader's restarting scan on values, what it means for framing sources, and the handler table class |
| `Pipeline.dfy` | the composition: sources, reader thread, queue, logger thread, any interleaving |
| `Destination.dfy` | what the destination sees: the logger's deliveries with the bytes sent for each |

What the operating system decides is a parameter or is chosen freely: byte
counts, error kinds, whether opens, writes, flushes and deliveries succeed, and
when the other thread runs; the few things taken for granted about files are
under "Left out". Integers are unbounded. Sizes and positions in a ring, a chunk or a
message are bounded by it; the semaphore, the queue size sampled and the number of
handlers are bounded by nothing here, as if the source's integers never overflowed.

## Where the code departs from its purpose

Each of these is modelled as written.

* `purgeline` tests `> end` and not `>= end` (src/input_buffer.c:215). The border
  can be left at the very end of the ring; a later read that fills the ring then
  makes every search fail and the whole ring is thrown away. Lines are lost in
  exactly the runs in which such a read contains a newline
  (`Framing.ReportedLines`, `Framing.LinesCanGetLost`). The `start - overflow`
  branch after that test is never taken by the framing machine.
* A refused write of the message that should start a backlog puts it back on the
  queue while it stays held (src/logger.c:247-254), so it is delivered twice
  (`LoggerRuns.MessageDeliveredTwice`, `LoggerTheorems.DoubledIff`).
* The result of `fflush` is ignored and the message freed (src/logger.c:64-65 and
  255-256): when the flush fails the message is gone
  (`LoggerTheorems.LostIff`). If nothing at all has got to a backlog just started,
  `getline` finds no line in it and the logger ends, with an empty or a full queue
  (`LoggerTheorems.NothingReadIff`, `LoggerRuns.FlushFailureLosesMessage`).
* While the logger runs these two are the only ways the flow of messages is
  disturbed, and the order is kept even then. Every message is on its way once, plus the times it was put
  back, minus the times it was lost; the flow is what is due if and only if these
  balance (`LoggerTheorems.Conservation`). They can:
  `LoggerRuns.HarmsCanCancel`.
* When the backlog opens for reading but not for appending, the message held is
  not in it (src/logger.c:233-244). A later spill does not write it either, and a
  stop at the sentinel then loses it (src/logger.c:209-213,
  `LoggerRuns.SpilledStopLosesMessage`,
  `LoggerTheorems.SpilledLeavesRestInBacklog`). The same goes for a message whose
  first write is refused, but there a copy is on the queue.
* The result of reopening the backlog for appending is tested the wrong way
  round (src/logger.c:190): success skips one pass, failure ends the process. So
  nothing is appended before two deliveries have failed in a row
  (`LoggerHandles.NothingAppendedAfter`), and the process is aborted in exactly the
  runs in which a reopening fails (`LoggerHandles.AbortedIff`).
* A message given up after its first byte is sent again from its start by the next
  delivery (src/output.c:20 with src/output_tools.c:52), on the same connection or
  another: the destination gets a fragment, joined to the line that follows
  (`DeliverySpec.GivenUpHalfWritten`, `Delivery.FragmentIsGlued`). It sees exactly
  the messages delivered if and only if no delivery was given up half written
  (`Delivery.OutputHandler.DeliverAll`, `Destination.DestinationSees`), that is, if
  no pass of one that failed took a byte (`DeliverySpec.NothingTakenIff`).
* A handler that once answers "connecting" is watched by nothing
  (src/output.c:44-50) and never leaves that state again, in this delivery or any
  later one (`DeliverySpec.ConnectingForever`, `Delivery.OutputHandler.DeliverAll`).
* After a handler is removed the scan starts over, and handlers that were read
  are read again; nothing being there then passes for their end. Who survives a
  round is characterised exactly (`Rounds.StaysIff`,
  `HandlerReads.LiveSourceRemoved`). After `select` fails over a
  bad descriptor all idle sources are removed (`Readers.Reader.Recover`).
* `buffer_cleanup` walks past the messages of every chunk but the first
  (src/buffer.c:162, `MessageQueues.MessageQueue.Cleanup`,
  `MessageQueues.CleanupMissesMessage`).

## Model

| member | source | states |
|---|---|---|
| Lines.SplitAppend | src/input_tools.c:123-128 | splitting a stream into lines is incremental: only the unfinished rest of what came before matters |
| Lines.SplitFlatten | src/logger.c:55-64 | framed messages written one after the other are read back line by line as the same messages |
| Lines.FlattenSplit | src/logger.c:131 | reading a file by lines loses no byte |
| RingLayout.CurrentIsModular | src/input_buffer.c:47-53 | the write position is border plus bytes held, modulo the capacity |
| RingLayout.RoomIsFree | src/input_buffer.c:55-62 | outside the blind state, `write` never exceeds the free space or the end of the ring, and is zero exactly when the ring is full |
| RingLayout.HeldExtended | src/input_buffer.c:45-67 | counting n more bytes appends exactly the bytes at the write position, in both layouts |
| RingLayout.HeldPrefix | src/input_buffer.c:262-281 | the first n bytes held lie in one piece, or in a tail and a head part |
| InputBuffers.InputBuffer.Create | src/input_buffer.c:19-43 | a new ring is consistent and empty |
| InputBuffers.InputBuffer.Update | src/input_buffer.c:45-67 | keeps the strengthened ring invariant and appends exactly the bytes placed at the write position |
| InputBuffers.InputBuffer.Find | src/input_buffer.c:81-156 | returns the one-based position of the first match in what is held, or -1; in the blind state always -1 |
| InputBuffers.InputBuffer.Validate | src/input_buffer.c:158-185 | the source's own check fails on a consistent ring exactly in the blind state, and accepts one inconsistent shape only |
| InputBuffers.InputBuffer.PurgeLine | src/input_buffer.c:187-238 | drops exactly the first line, or everything when none is found; keeps the invariant if and only if the line does not run past the end, and says where the border goes otherwise |
| InputBuffers.InputBuffer.GetLine | src/input_buffer.c:240-303 | returns and removes exactly the first line in both layouts, keeping the invariant |
| InputHandlers.InputHandler.Read | src/input_tools.c:17-140 | one read is a framing step; the guards on `write` and `available` never fail and the purge of a full ring never finds a line |
| Framing.Read | src/input_tools.c:17-140 | every read leaves a ring with free space, and one that drops an oversized line has its border at the start, so the purge never wraps |
| Framing.Drain | src/input_tools.c:123-128 | the drain loop leaves no newline behind unless the ring is blind |
| Framing.ReadTracks | src/input_tools.c:101-136 | one read reports the last of the fitting lines its bytes complete, and all of them unless a read has misfired; a misfiring one reports none of them |
| Framing.ReportedLines | src/input_tools.c:17-140 | for every capacity and every way of cutting the stream into reads, the lines reported are the stream's lines that fit, in order, if and only if no read misfires; misfires leave some out and never report a fragment |
| Framing.ReportedWithoutFullReads | src/input_tools.c:69-71 | they always are when no single read fills the whole ring |
| Framing.ChunkingIndependence | src/input_tools.c:101-139 | two ways of reading the same stream report the same lines |
| Framing.NothingAfterDead | src/input_tools.c:25-54 | after a dead read nothing more is taken from the source or reported |
| Framing.LinesCanGetLost | src/input_buffer.c:212-218 | a run of three reads that loses two lines |
| ChunkList.WindowFront | src/buffer.c:86-95 | the front message is in the first chunk, and the last slot of a chunk always has a successor chunk |
| MessageQueues.MessageQueue.Init | src/buffer.c:114-135 | a new queue is valid and empty |
| MessageQueues.MessageQueue.Store | src/buffer.c:28-39 | the locked part of a push appends, for every chunk size and across chunk boundaries |
| MessageQueues.MessageQueue.Take | src/buffer.c:84-97 | the locked part of a pop removes and returns the front; it never reads an empty slot or follows a null link |
| MessageQueues.MessageQueue.Restore | src/buffer.c:52-68 | the locked part of an unpop prepends |
| MessageQueues.MessageQueue.Push | src/buffer.c:23-45 | appends and posts |
| MessageQueues.MessageQueue.Pop | src/buffer.c:76-103 | returns the front, so after an unpop exactly what was put back |
| MessageQueues.MessageQueue.Unpop | src/buffer.c:47-74 | prepends and posts |
| MessageQueues.MessageQueue.Size | src/buffer.c:105-112 | the size reported never exceeds the messages stored |
| MessageQueues.MessageQueue.Cleanup | src/buffer.c:137-171 | frees exactly the messages in the rest of the first chunk, which are all stored exactly when they fit there |
| MessageQueues.CleanupMissesMessage | src/buffer.c:162 | with chunks of one slot, of two messages pushed the second is not freed |
| QueueProtocol.PopsFindMessages | src/buffer.c:23-103 | for any interleaving of any number of threads, stored messages equal semaphore plus posts to come plus pops to come, so a pop always finds one |
| QueueProtocol.FirstInFirstOut | src/buffer.c:23-103 | for any interleaving, messages taken and not put back are the first ones stored, in order |
| SharedQueues.Execute | src/buffer.c:23-103 | any interleaving of the threads' steps can be executed on the linked queue, whose contents and semaphore follow the protocol; every take finds its message |
| LoggerInvariant.InvInitial | src/logger.c:81-109 | the invariant holds when the logger starts on any backlog |
| LoggerAccounts.AccountsOnce | src/logger.c:118-173 | messages in order that balance are exactly the ones due if and only if each was lost as often as it was put back |
| LoggerSteps.TakeKeepsInv | src/logger.c:42-52 | a pop, for delivery or for a spill, keeps the flow of messages |
| LoggerSteps.DeliveredKeepsInv | src/logger.c:121-173 | a delivery takes the message held to the delivered ones and goes on with the backlog or the queue |
| LoggerSteps.FailedKeepsInv | src/logger.c:174-258 | a failed delivery keeps the flow, whichever open fails and also when the write is refused; if only the flush of the first backlog line fails, exactly the message held leaves it |
| LoggerSteps.AppendKeepsInv | src/logger.c:54-66 | a spilled message goes to the end of the unread backlog or stays in hand; if only the flush fails, exactly that message leaves the flow |
| LoggerSteps.UnpopKeepsInv | src/logger.c:58-61 | an append undone by an unpop restores the flow; putting back a held message adds one copy right behind it |
| LoggerSteps.ResumeKeepsInv | src/logger.c:283-292 | a new backlog has a first line to hold, unless everything written to it was lost; then the loop ends |
| LoggerSteps.RunKeepsInv | src/logger.c:72-301 | every reachable state satisfies the invariant |
| LoggerTheorems.Conservation | src/logger.c:72-301 | for every run: delivered, held, unread backlog, in hand and queued are messages of the old backlog and of those pushed, in order, each once plus the times it was put back while held minus the times it was lost; they are exactly what is due if and only if these balance |
| LoggerTheorems.DoubledIff | src/logger.c:246-254 | held messages are put back in exactly the runs in which the write of the first message of a new backlog is refused |
| LoggerTheorems.LostIff | src/logger.c:64-65 | messages are lost in exactly the runs in which a line is taken by `fputs` and its flush fails |
| LoggerTheorems.ConservedIff | src/logger.c:246-256 | while one of these two branches is not taken, the flow is what is due if and only if the other is not taken either |
| LoggerTheorems.HeldIff | src/logger.c:233-254 | a message is held that is not in the backlog being read exactly if the last opening of it failed to append or to write, and nothing was delivered since |
| LoggerRuns.FlushFailureLosesMessage | src/logger.c:246-292 | a run whose only message is neither delivered nor in the file, and which ends the logger |
| LoggerRuns.SpilledStopLosesMessage | src/logger.c:233-244 | a run without refused or lost writes whose only message is neither delivered nor in the file when the logger stops at the sentinel |
| LoggerRuns.HarmsCanCancel | src/logger.c:246-256 | a run that takes both branches and delivers its message exactly once |
| LoggerRuns.MessageDeliveredTwice | src/logger.c:246-254 | a run with one message pushed and delivered twice |
| LoggerTheorems.DrainedDeliversAll | src/logger.c:118-173 | what a logger that ends in its main loop has delivered accounts for everything due, and is everything in order if and only if neither branch was taken (given that one was not) |
| LoggerTheorems.NoErrorsNoHarm | src/logger.c:183-258 | without failing opens for appending, refused first writes and failing flushes, nothing is put back, lost or held back, and the logger ends only at the sentinel |
| LoggerTheorems.NothingReadIff | src/logger.c:283-292 | the logger ends on an empty backlog in exactly the runs that start one, lose its first line and write nothing more until the spill is over |
| LoggerTheorems.OnlyDeliveryBlocks | src/logger.c:38-43 | the logger blocks only waiting for a message to deliver; a spill never blocks and no pop finds the queue empty |
| LoggerTheorems.SpillMovesSnapshot | src/logger.c:27-70 | a spill moves exactly the messages it sampled to the end of the backlog, in order, while the reader keeps pushing |
| LoggerHandles.NothingAppendedAfter | src/logger.c:158-196 | after a delivery, a write that failed for good or an opening for reading only, and while the backlog goes on being read, nothing is popped or written before two deliveries fail in a row |
| LoggerHandles.SecondFailureSpills | src/logger.c:183-198 | the first of two failures in a row opens the handle and leaves file and queue alone, the second one spills |
| LoggerHandles.NextSpillIff | src/logger.c:200-207 | after a spill the next failure spills again if and only if no write has failed for good |
| LoggerHandles.AbortedIff | src/logger.c:190-198 | the process is aborted in exactly the runs in which reopening the backlog for appending fails |
| LoggerTheorems.SpilledLeavesRestInBacklog | src/logger.c:46-52 | at a stop while spilling, what was delivered and the backlog from the line read last on account for everything due, but for a message held back; without refused and lost writes they are everything in order if and only if none is; the lines before are the ones delivered last |
| LoggerTheorems.RestartDeliversAll | src/logger.c:91-105 | the next run delivers all of it, and only the delivered front of the backlog is delivered again |
| LoggerTheorems.RestartsDeliverAll | src/logger.c:91-105 | over any number of lifetimes, all but the last stopped while spilling, everything due is delivered in order at least once, and what is delivered beyond that are as many lines as were replayed |
| LoggerTheorems.StopsKeepAll | src/logger.c:46-52 | over any number of lifetimes that all stop while spilling, what was delivered and what the file holds cover everything due, in order |
| BacklogFile.LineAt | src/logger.c:131 | at the byte position after k lines `getline` finds line k, or the end |
| BacklogFile.LinesAt | src/logger.c:131 | what is behind that position splits into the lines not yet read |
| Loggers.Logger.Interfere | src/reader.c:180-198 | the reader may take any number of steps between two actions of the logger |
| Loggers.Logger.PopMessage | src/logger.c:152-171 | holds the front message, ends at the sentinel, or is blocked at semaphore zero |
| Loggers.Logger.AppendMessage | src/logger.c:54-66 | appends to the byte file and goes on, goes on without it when only the flush fails, or unpops |
| Loggers.Logger.SpillMessage | src/logger.c:42-66 | one round of the spill: written or lost, refused, or the sentinel |
| Loggers.Logger.WriteBacklog | src/logger.c:27-70 | the counted loop is a spill of the step system with the writes as answered, with its three results; the handle is closed at the sentinel |
| Loggers.Logger.OpenBacklog | src/logger.c:91-109 | starts on the first line of an old backlog if there is one |
| Loggers.Logger.AfterSending | src/logger.c:121-173 | goes on with the next line, nothing being appended any more, or truncates the backlog at its end |
| Loggers.Logger.SpillToBacklog | src/logger.c:178-221 | with a backlog being read: a closed handle is reopened and nothing else changes, or the process is aborted; an open one is used to spill, and closed at the sentinel |
| Loggers.Logger.AfterSpill | src/logger.c:200-207 | the handle for appending is closed exactly after a write that failed for good |
| Loggers.Logger.BeginBacklog | src/logger.c:226-258 | opens both handles and writes the message held, with every way this can fail, the flush included; the file has grown by the message exactly if it was written |
| Loggers.Logger.StartBacklog | src/logger.c:222-295 | without a backlog: start one and hold its first line, or end if there is none |
| Loggers.Logger.FirstOfBacklog | src/logger.c:261-292 | the loop ends exactly if the file just started is empty |
| Loggers.Logger.MakePass | src/logger.c:119-297 | one delivery, and by how it ends and whether a backlog is read, the next message, a spill, or a backlog started |
| Loggers.Logger.FieldsAccount | src/logger.c:72-301 | the law of the pipeline on the loop's message, the destination's messages, the lines of the byte file behind the read position, and the queue |
| Loggers.Logger.Run | src/logger.c:72-301 | for any answers, any number of passes and any interference the execution is a run of the step system in which every pass tries one delivery and all opens, writes and errors are as answered; the law holds on the fields wherever the run is left, and a drained logger has output everything |
| DeliverySpec.PassesBounded | src/output.c:24-117 | at most three passes per report of activity, plus three |
| DeliverySpec.SilentGivenUp | src/output.c:60-64 | a destination that is never active is given up within three passes |
| DeliverySpec.GivesUpLate | src/output.c:24-121 | success is exactly nothing left to do and leaves the handler ready; giving up leaves no error behind |
| DeliverySpec.GivenUpIff | src/output.c:20-117 | on the answers: a delivery is given up if and only if the passes since the last activity have cost three tries -- one for no activity, one for a connection lost -- and not before |
| DeliverySpec.ActivityRenews | src/output.c:86 | after a pass with activity it does not matter how many tries were left before it |
| DeliverySpec.SelectErrorIff | src/output.c:56-58 | a delivery ends with an error of `select` if and only if `select` failed in a pass, its last |
| DeliverySpec.WritesGoOn | src/output_tools.c:42-78 | after unfinished writes the next pass delivers if and only if the handler is writable and the rest is taken, having reconnected if the connection broke |
| DeliverySpec.FailedConnectIsRepeated | src/output_tcp.c:43-73 | after a failed connect the next pass connects again, and delivers if and only if that succeeds at once and everything is taken |
| DeliverySpec.TwoFailedConnectsGiveUp | src/output.c:110-116 | two failed connects in a row end the delivery |
| DeliverySpec.ConnectingIff | src/output_tcp.c:62-67 | a delivery leaves the handler connecting if and only if it was so or a connect it made was answered as in progress |
| DeliverySpec.SendingIff | src/output_tools.c:50-67 | it leaves the handler sending if and only if a write is unfinished on a connection not lost since |
| DeliverySpec.DisconnectedIff | src/output.c:110-116 | it leaves the handler disconnected if and only if its last pass lost the connection and it did not end otherwise |
| DeliverySpec.InErrorIff | src/output.c:56-58 | it leaves the handler in error if and only if connecting and then `select` failed in its last pass |
| DeliverySpec.DeliversAtOnceIff | src/output.c:27-93 | a pass delivers if and only if the handler is or gets connected, is reported writable, and the writes take all that is left |
| DeliverySpec.ConnectingForever | src/output.c:43-50 | a connecting handler never delivers and never leaves that state |
| DeliverySpec.NothingTakenIff | src/output.c:83-93 | a delivery leaves the whole message to do if and only if no pass made finds the handler writable and its first write taking something |
| DeliverySpec.GivenUpHalfWritten | src/output.c:60-64 | answers for which a delivery is given up after one byte, with the connection left in sending |
| DeliverySpec.WriteAllTakesOffered | src/output_tools.c:31-53 | the write loop takes exactly the bytes offered before the first refusal |
| Delivery.OutputHandler.Connect | src/output_tcp.c:23-80 | ready, connecting or in error by what the system answers; a descriptor is open exactly when the handler is not disconnected |
| Delivery.OutputHandler.Disconnect | src/output_tcp.c:82-104 | the same, also when closing fails |
| Delivery.OutputHandler.Write | src/output_tools.c:17-79 | the destination gets exactly the bytes between the old and the new place in the message |
| Delivery.OutputHandler.Deliver | src/output.c:12-122 | the guards never fail; the bytes taken are the first ones of the message, each once, over any reconnects; success means all of them |
| Delivery.OutputHandler.DeliverAll | src/output.c:12-122 | over any deliveries the destination gets of every message what its delivery got through, all of it where it succeeded; it gets the messages delivered and nothing else if and only if none was given up half written; nothing more comes once a delivery leaves the handler connecting |
| Delivery.NothingSentIff | src/output.c:83-93 | nothing of a message is sent if and only if no pass of its delivery takes anything |
| Delivery.LinesSeenIff | src/output_tools.c:27-53 | the destination's bytes split into exactly the messages delivered if and only if none was given up half written |
| Delivery.FragmentIsGlued | src/output.c:20 | two deliveries, one given up after a byte and one that succeeds, from which the destination reads one line nobody sent |
| Rounds.KeptAfterRemoval | src/reader.c:116-119 | a removal and the restart that follows do not change which handlers a round keeps |
| Rounds.KeptWithoutRemoval | src/reader.c:104-131 | a pass without removal reads every reported handler once |
| Rounds.StaysIff | src/reader.c:96-131 | a reported handler stays if and only if it answers one read more than the handlers removed behind it |
| HandlerReads.AnswersIff | src/input_tools.c:25-99 | a framing source answers zero until its first read that fails, returns nothing or finds nothing |
| HandlerReads.LiveSourceStaysIff | src/reader.c:96-131 | a reported source that has not ended stays if and only if its next reads, one more than there are removals behind it, all find it alive |
| HandlerReads.LiveSourceRemoved | src/reader.c:116-119 | a source that has just sent bytes is removed because of a source behind it, and not because of one before it |
| Rounds.IdleAllRemoved | src/reader.c:151-173 | reported handlers for which nothing has arrived are all removed |
| Readers.Reader.AddSource | src/reader.c:20-55 | appends to the table, reallocating it every time |
| Readers.Reader.RemoveHandler | src/reader.c:57-90 | removes one handler and its descriptor bit, the others keeping their order |
| Readers.Reader.ReadHandler | src/reader.c:112-130 | one read, which may add handlers that are not reported |
| Readers.Reader.Scan | src/reader.c:96-131 | the restarting scan terminates, also when reads add handlers, and keeps exactly the handlers of `Rounds.Kept` in order |
| Readers.Reader.Rearm | src/reader.c:133-141 | every descriptor is watched again, and the bound for `select` covers them |
| Readers.Reader.Recover | src/reader.c:151-173 | after a bad descriptor every other handler is taken for reported, and the idle ones are removed |
| Pipeline.ReadKeepsSource | src/input_tools.c:17-140 | a source has reported the fitting lines of its stream if and only if no read has misfired |
| Pipeline.NextKeepsInvariant | src/main.c:46-77 | every step of reader or logger keeps the composed invariant |
| Pipeline.ReaderNeverStuck | src/reader.c:180-198 | the reader's next push, or its sentinel, is always possible |
| Pipeline.LoggerEvents | src/main.c:46-77 | every run of the program is a run of the logger's step system |
| Pipeline.MisfiredIff | src/input_buffer.c:212-218 | a source is marked as misfired exactly if the run has a read of it that misfires |
| Pipeline.NoFullReadsNoMisread | src/input_tools.c:69-71 | no read misfires if none fills a whole ring |
| Pipeline.OnlyWholeLines | src/main.c:46-77 | whatever fails, the messages delivered are messages pushed, in order, and each is a whole fitting line of its source |
| Pipeline.EndToEnd | src/main.c:46-77 | for any interleaving without refused first writes and failing flushes, the messages delivered of one source are fitting lines of its stream in order, a prefix of them if no read of it misfires, and, when the logger drains, all of them if and only if none does |
| Pipeline.NothingLostOnSpilledStop | src/logger.c:46-52 | at a stop while spilling, delivered messages and backlog hold every line of every source, unless a message was held back; if and only if no read misfires |
| Pipeline.EveryLineArrives | src/main.c:46-77 | with conditions on the events alone -- no backlog errors, no read that fills a whole ring -- once the logger has stopped every fitting line of every source is delivered or in the backlog, in order and once |
| Destination.ChosenAreDelivered | src/logger.c:121-127 | the messages the logger counts as delivered are, in order, those whose delivery succeeded |
| Destination.DestinationSees | src/logger.c:121 | whatever was sent in the deliveries of a run, the destination's bytes split into exactly the messages delivered if and only if none was given up half written |
| Destination.EveryLineIsSeen | src/main.c:46-77 | from byte stream to byte stream: without backlog errors, full reads and deliveries given up half written, a drained logger has shown the destination every fitting line of every source, in order and once |

## Left out

- Loggers.Logger: keeps the queue as the sequence and the semaphore that the contracts of `MessageQueues.MessageQueue` present, not as that object; aliasing of the two is not modelled.
- Loggers.Logger.Run: observes the first passes of a loop that need not end; whether a delivery succeeds is one of the answers, not computed by `Delivery.OutputHandler`, and `output` holds the messages delivered; `Destination` says when these are what the destination sees.
- LoggerTheorems.Conservation: a line is written as a whole or not at all. A refused or unflushed write that leaves a part of the line in the file, so that later lines are joined to it, is not modelled; nor is a C library that keeps a line after a failed flush and writes it later: such a line is taken for lost.
- LoggerTheorems.DrainedDeliversAll: takes opening a nonempty old backlog (src/logger.c:92), truncating the backlog and reading it as always succeeding. Old lines passed over would be delivered after newer ones by a later backlog; a read error is taken for the end of the file by the source, and the unread rest would be truncated.
- Loggers.Logger.OpenBacklog: the same, and opening the backlog for reading succeeds whenever opening it for appending does.
- Loggers.Logger.FirstOfBacklog: after a `getline` that finds nothing the logger is taken to end. The source ends if `getline` leaves `msg` null; a C library that leaves an unfilled buffer there makes it deliver that buffer's content, which is not modelled.
- LoggerTheorems.RestartsDeliverAll: a backlog whose last line has no newline is not modelled; delivering such a line aborts the source's process.
- InputBuffers.InputBuffer.PurgeLine: when the line runs past the end the new border is outside the ring; what later operations would do with it is not modelled, since the framing machine never gets there.
- Readers.Reader.ReadHandler: how many reads a handler still answers is given; `HandlerReads` says what that number is for a framing source, not for a listening socket.
- Pipeline.EndToEnd: the reader may finish whenever it is between pushes, and may read a source whenever it likes; which sources its scan keeps (`Readers.Reader.Scan`) is not computed there.
- Delivery.OutputHandler.DeliverAll: the bytes taken over all connections are one sequence; which connection carried which of them is not recorded.
- Closing a file twice on the sentinel path (src/logger.c:50 with 211 and 274), freed memory and pointers to it, `malloc` failure.
- NUL bytes inside lines: delivery and backlog see C strings.
- Sockets, `select`, `ioctl`, `open` and the like, other than their results; address lookup, options, logging and the setup of sources.
- Output to files, UDP and UNIX sockets, and the cleanup of an output handler.
- Thread cancellation in the middle of a reader's pushes: the reader is taken to finish before its sentinel is pushed.
