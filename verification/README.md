# lidi, verified

lidi carries many byte streams over a one-way UDP link that loses and reorders datagrams. Clients'
bytes are cut into blocks, the blocks of all clients are numbered with one byte and encoded by
several threads into RaptorQ packets; the receiver groups packets by block, decodes blocks in several
threads, puts them back in order and hands each client its own bytes.

This project models that pipeline and proves what it guarantees. Loops over mutable state are methods
of classes (`Reblock.Worker`, `Dispatch.Dispatcher`) or methods with loops, proved against functions
on values; threads that share a lock are a transition system whose runs are all interleavings; and the
whole diode is a transition system built from those functions.

| module | what it is |
|---|---|
| `Bytes`, `Streams` | fixed-width integers, little-endian encoding; readers and writers that deliver any split and fail at any time |
| `Protocol` | block layout, RaptorQ size arithmetic |
| `Sender` | cutting a client's bytes into blocks, aborts, 8-bit numbering |
| `Turnstile`, `TurnstileRuns`, `FailureBound` | the ordered hand-off of encoders and decoders, over all runs |
| `TurnstileResets`, `Wakeups` | the decoders' hand-off across resets; no wake-up is lost in any run of the diode |
| `Reblock`, `Epoch`, `EmissionLoop` | the reblocking ring, its refinement of a window over unbounded block numbers, and when its loop ends |
| `Dispatch`, `Demultiplex` | routing blocks to client queues; the queues as a function of the list of events |
| `ReceiveClient` | writing one queue out |
| `Pipeline`, `EndToEnd`, `NoPanic` | the whole diode, its invariant, and its safety |
| `LosslessLink`, `LosslessRun` | what it delivers on a link that loses nothing, and a run that shows this is not vacuous |
| `Witnesses`, `Overtaking`, `SkippingReset`, `StaleBlock` | runs of the whole diode that show each of its safety conditions to be needed |
| `FileProtocol`, `FileTransfer`, `FileOverDiode` | sending and receiving a file over a stream, and over the diode |

## What holds, and what does not

- End to end: what a receiving client writes is a prefix of what its sending client read, and a transfer
  reported as successful is complete (`EndToEnd.EndToEndSafety`, and for the worker that writes,
  `EndToEnd.WriteStream`). This holds for every run, with resets at any time, in which the codec is sound
  (`Pipeline.Sound`), packets are near the window (`Epoch.Near`), and three conditions hold. Each of the
  three is needed: there is a run, of a system that the programs can build and with a codec that decodes from
  any two different packets, that breaks only that one and tells a client of a success although its data
  was not delivered.
  - There is one decoder, or decoders and failed blocks together are at most 256 in each epoch
    (`Pipeline.FewFailures`). `Overtaking.FewFailuresIsExact`: 257, for every number of decoders from 2 on.
  - No reset skips or repeats a block of a transfer that is still open (`Pipeline.Harmless`, which by
    `Pipeline.HarmlessIsExact` is exactly when all queues stay in step). A reset does not abort active
    transfers: `SkippingReset.ResetCanDeceive`, with one idle decoder and no failure.
  - No thread that holds a block from before a reset finds its turn come after it
    (`TurnstileResets.StaleWaits`); by `TurnstileResets.StaleTakesTurnIff` its turn comes exactly when the
    number of blocks sent since the reset is, modulo 256, how far the identifier it holds lies ahead of the
    first one. `StaleBlock.StaleBlockDeceives`, without any failure, for every number of decoders from 2 on.
- In every run whatsoever, the blocks that reach the dispatcher are blocks that were sent, and none of its
  accessors panics on them (`NoPanic.DispatchNeverPanics`).
- No wake-up is lost: in every run whatsoever, with resets at any time and any number of failures, a thread
  asleep although the identifier it holds is the turn is about to be woken (`Wakeups.NoWakeupIsLost`).
- With the flush setting, every read of a sending client leaves at once as its own data block
  (`Sender.SendClient`), and a receiving client's data is flushed block by block (`ReceiveClient.Run`).
- On a link that loses, repeats and delays nothing, the receiver left to itself takes a bounded number of
  steps, and when it can take no more, every client whose stream was sent from the first block received on
  has been served in full (`LosslessLink.LosslessDelivery`), given that any `threshold` different packets of
  a block decode. There are such runs (`LosslessRun.LosslessRunExists`).
- A file that is accepted at the far end of the diode is the file that was sent
  (`FileOverDiode.ReceiveOverDiode`).
- Every finite input drains: the encoders take a bounded number of steps and stop only when every block
  has been delivered, in order (`TurnstileRuns.EncodersDrain`, `TurnstileRuns.RunsAreShort`).
- A packet's 8-bit number is judged rightly from 129 blocks behind the window's front to 255 ahead, and
  no wider range is judged rightly throughout (`Epoch.NearIsExact`).
- `Reassembled::Error` is never sent: the test for damaged slots after a timeout and the "too far"
  branch of the emission loop never succeed (`Reblock.Worker.Timeout`, `Reblock.Worker.Receive`). A
  timeout therefore resets the window without aborting active transfers.
- As long as threads and failed blocks together are at most 256, a block that fails to decode stops the
  turn: no later block is dispatched in that epoch (`TurnstileRuns.FailureStallsForever`), and what was
  dispatched is in order and without a gap (`TurnstileRuns.OrderForever`). With one failure more, a block
  256 places further on can overtake a failed one, for every number of threads
  (`FailureBound.FailureBoundIsExact`).
- The receiver's threshold is a 16-bit sum. It is at most what the sender emits exactly when the minimal
  repair packets are no more than the sender's or the sum wraps, as it is for a minimal percentage up to the
  other, and that up to 100 (`Protocol.ThresholdReachable`); both ends accept settings in which no block
  reaches it (`Protocol.ThresholdOutOfReach`).
- It is zero exactly when symbols and minimal repair packets add up to 65536, or a block has no symbol
  because the requested size is below one packet (`Protocol.ThresholdZeroIff`). Configurations of both kinds
  are accepted by `RaptorQ::new` as far as it is modelled (`EmissionLoop.ZeroThresholdIsAccepted`,
  `EmissionLoop.EmptyBlockIsAccepted`), and then, and only then, the emission loop of the reblocking worker
  never ends (`EmissionLoop.EndsIffSumFits`).
- With hashing on at both ends of a file transfer, the footer is accepted, for every hash function,
  exactly if the two buffer sizes are equal or the file is smaller than both
  (`FileTransfer.HashAgreement`).
- The hasher is given the whole content, whatever the buffer (`FileTransfer.UpdatesHoldContent`): with
  hashing, content altered on the way is accepted exactly if both have the same hash
  (`FileTransfer.AlteredIsHashed`), so under every hash function only if it was not altered
  (`FileTransfer.AlteredFile`).
- A file that grows after its length was read is cut at that length, and reported as received unless
  hashing is on and the 16 bytes that follow the cut are not the hash of what was taken. A file that
  shrinks is refused as truncated, but up to 16 bytes of the footer are first written as content
  (`FileTransfer.LengthMismatch`).
- The error for an invalid file size is unreachable unless the receiver has an empty buffer
  (`FileTransfer.InvalidFileSizeNeedsEmptyBuffer`): on a stream that ends early, reading the footer fails
  first.

## Model

| member | source | states |
|---|---|---|
| `Protocol.NewBlock` | src/protocol.rs:254-294 | What stands in every byte: client and length least significant byte first, the type codes 0 to 4, the data from byte 9 on, zeros after it; without data, no length field beyond the transfer length; a block is exactly as long as the transfer length when its data fits and longer otherwise; the in-place and the appending branch build the same bytes; only data of 2^32 bytes or more is refused |
| `Protocol.BlockRoundTrip` | src/protocol.rs:296-332 | Every message of a known type that fits comes back unchanged through the three accessors, none of which is out of bounds on it |
| `Protocol.AccessorsRead` | src/protocol.rs:296-328 | What the accessors read out of any block, byte by byte, which codes are which type, and when the payload is within bounds |
| `Protocol.NewRaptorQ` | src/protocol.rs:86-132 | Which of the three conversions fails first, and all five sizes when none does, with 16-bit subtraction and 32-bit products that wrap; for percentages up to 100, it fails exactly when the symbol count needs more than 16 bits, and otherwise the block is the largest multiple of the packet size within the requested one, and the repair packets are the larger of the two floored shares |
| `Protocol.PacketSizeExact` | src/protocol.rs:92-93 | The packet size is a multiple of 8, zero exactly for an MTU from 32 to 39, and within 32 to 39 bytes of an MTU from 40 on; below 32 the subtraction wraps and it is at least 65504 |
| `Protocol.SizesExact` | src/protocol.rs:95-121 | With percentages up to 100, construction fails exactly when the symbol count needs more than 16 bits; a block is the largest multiple of the packet size within the requested size; the minimal repair packets are their floored share, the repair packets the larger of the two shares, and never more than the symbols |
| `Protocol.SizesFail` | src/protocol.rs:95-117 | For all settings, which of the three conversions fails, with products of 32 bits |
| `Protocol.RepairBound` | src/protocol.rs:109-117 | Up to 100 percent there are at most as many repair packets as symbols |
| `Protocol.ThresholdReachable` | src/protocol.rs:140-150 | For all settings that both ends accept, the block sizes agree, and the receiver's threshold is at most what the sender (built with a minimum of 0) emits iff the minimal repair packets are no more than the sender's or the 16-bit sum wraps; so it is when the minimal percentage is at most the other and that at most 100 |
| `Protocol.ThresholdZeroIff` | src/protocol.rs:140-145 | For every accepted configuration the threshold is zero iff the requested size is below one packet or the sum is 65536, and is the sum iff that fits in 16 bits |
| `Protocol.ThresholdOutOfReach` | src/protocol.rs:109-150 | Settings that both ends accept and in which the threshold exceeds what the sender emits |
| `Sender.SendClient` | src/send/client.rs:7-82 | For every split of reads: one start block, data blocks, one end block whose payloads are exactly the bytes read; with flush, the data blocks are exactly the reads that delivered bytes, one for each, in order, on failure too; without it they are full; on a read error, which is the only way to fail, what was sent is a prefix and less than one buffer is held back |
| `Sender.ServeClient` | src/send/server.rs:20-37 | Every client, failed or not, leaves a complete stream: a start, data and exactly one terminal block, which is an abort iff a read failed; with flush every read has left as its own data block, failed or not |
| `Sender.StreamLength` | src/send/client.rs:24-81 | Without flush, n bytes make n / max_data_len + 2 blocks, however the reads were split |
| `Sender.StreamFits` | src/send/client.rs:24-65 | Every block of every stream meets the length constraint that the block constructor leaves unchecked |
| `Sender.Order` | src/send/ordering.rs:5-18 | Blocks keep their order and block k gets number k modulo 256 |
| `Turnstile.ConsecutiveWidth` | src/receive/decode.rs:9-49 | The jobs between the one due and the last one pulled are no more than threads and failures together |
| `Turnstile.OnlyTheDueOne` | src/send/encoding.rs:22-28 | Among 256 consecutive jobs the 8-bit comparison admits only the one that is due |
| `Turnstile.TurnIsDue` | src/receive/decode.rs:29-34 | In every state within the bound, a thread's 8-bit comparison succeeds iff its job is the one that is due |
| `Turnstile.StepKeepsInv` | src/send/encoding.rs:6-35 | Every step of every thread keeps: held jobs are the consecutive run from the due one, one lock holder carrying the due job, no lost wake-up, results in input order |
| `TurnstileRuns.OrderForever` | src/send/encoding.rs:6-35 | In every interleaving from the start, over unbounded runs and wrap-around, the results sent are those of an initial run of the input, in order and without a gap |
| `TurnstileRuns.ReachableInv` | src/receive/decode.rs:9-49 | Every reachable state with at most 256 - workers failures meets the invariant |
| `TurnstileRuns.EncodersInOrder` | src/send/encoding.rs:14-34 | With up to 256 encoders, in every reachable state, output i is the encoding of input i |
| `TurnstileRuns.SleeperWillBeWoken` | src/send/encoding.rs:22-34 | A thread asleep with an identifier equal to the turn implies that another thread is between advancing and notifying |
| `TurnstileRuns.SomeStepPossible` | src/send/encoding.rs:18-34 | No deadlock: unless all is delivered or the due job has failed, some internal step is enabled, although channels are bounded and the send is made under the lock |
| `TurnstileRuns.StepMeasure` | src/send/encoding.rs:6-35 | Every internal step lowers a measure, which only new work or a spurious wake-up raises, by a fixed amount |
| `TurnstileRuns.RunsAreShort` | src/send/encoding.rs:6-35 | Every run from the start has at most (workers + 10) steps per job submitted and two per spurious wake-up, whatever fails |
| `TurnstileRuns.InternalRunsAreShort` | src/receive/decode.rs:9-58 | From any reachable state, encoders or decoders take at most `Measure` steps of their own, under any scheduling and whatever fails |
| `TurnstileRuns.EncodersDrain` | src/send/mod.rs:151-156 | From any reachable state and under any scheduling, the encoders take a bounded number of steps of their own, and at every moment either have delivered every block, in order, or can take another step; for every positive channel capacity |
| `TurnstileRuns.DrainExists` | src/send/encoding.rs:6-35 | From every reachable state some run of the encoders' own steps delivers every block, in order |
| `TurnstileRuns.OneWorkerInOrder` | src/receive/decode.rs:9-49 | With one worker, output i is the result of job i or its failure, however many fail |
| `TurnstileRuns.FailureStallsForever` | src/receive/decode.rs:14-18 | Once the due block has failed to decode, the turn does not move and no block is dispatched any more, while workers and failures are at most 256 together |
| `FailureBound.FailureBoundIsExact` | src/receive/decode.rs:14-47 | For every number of workers from 1 to 256 there is a run with 257 - workers failures in which block 256 is the only one dispatched although block 0 failed |
| `TurnstileResets.StepRefines` | src/receive/decode.rs:9-58 | Across a reset that leaves threads and queue as they are: while no stale job takes the turn, every step of the decoders is a step of the current epoch by itself, or does not show there |
| `TurnstileResets.ResetView` | src/receive/reblock.rs:66-71 | A reset makes the current epoch an initial state of the hand-off, whatever threads and queue still hold |
| `TurnstileResets.ResetTouchesOnly` | src/receive/reblock.rs:66-71 | A reset overwrites the turn and wakes every sleeper; no other thread changes, and no queue, lock or output |
| `TurnstileResets.ResetKeepsAwake` | src/receive/reblock.rs:66-71 | After a reset, and after more jobs, no thread is asleep with an identifier equal to the turn unless some thread is about to notify |
| `TurnstileResets.StaleTakesTurnIff` | src/receive/reblock.rs:66-71 | A stale job finds its turn come iff the number of blocks sent since the reset is, modulo 256, the distance of its identifier from the first one |
| `Wakeups.NoWakeupIsLost` | src/receive/decode.rs:22-47 | In every legal run of the whole diode, with resets at any time and any number of failures, an encoder or decoder asleep with an identifier equal to the turn implies a thread that is about to notify |
| `Reblock.Worker.Timeout` | src/receive/reblock.rs:24-44 | A timeout only requests a reset: the test for damaged slots never succeeds and nothing is sent |
| `Reblock.Worker.Receive` | src/receive/reblock.rs:50-128 | One batch fills the window, sends exactly the ready blocks at its head in order, and slides past them; after a reset the window and the turn start at the first datagram; no error is sent; the open slots are the 127 from the current identifier, ignored slots are empty, and the head is below the threshold |
| `Reblock.Worker.Reopen` | src/receive/reblock.rs:50-79 | A reset empties every slot, opens exactly the 127 slots from the first identifier, and overwrites the turn |
| `Reblock.Worker.Sort` | src/receive/reblock.rs:81-100 | Every open slot gains exactly the packets with its identifier, in arrival order; everything else is dropped |
| `Reblock.WithIdHasAll` | src/receive/reblock.rs:81-100 | The packets sorted under an identifier are all that carry it, each as often as it arrived, and no others |
| `Reblock.Worker.EmitWhileReady` | src/receive/reblock.rs:102-128 | For a positive threshold the loop ends after at most 127 blocks, with the head below the threshold, having sent a run of consecutive blocks; the slot it opens is always empty |
| `Reblock.EmitStep` | src/receive/reblock.rs:102-128 | One emission: the opposite slot is empty and never the current one, and ring, flags and output are those of one emission more |
| `EmissionLoop.IterateSorted` | src/receive/reblock.rs:102-128 | Whatever the threshold, an iteration opens an empty slot, does not take the "too far" branch, and leaves the ring in the shape it found |
| `EmissionLoop.GoesForever` | src/receive/reblock.rs:102-128 | At threshold zero, after any number of iterations the guard holds and the break has not been taken |
| `EmissionLoop.EndsIffThresholdPositive` | src/receive/reblock.rs:102-128 | On every ring of the shape that a sorted batch leaves, the loop ends iff the threshold is positive |
| `EmissionLoop.EndsIffSumFits` | src/protocol.rs:140-145 | For every accepted configuration, the loop ends iff a block has a symbol and symbols and minimal repair packets do not add up to 65536 |
| `EmissionLoop.ZeroThresholdIsAccepted` | src/protocol.rs:95-117 | A configuration that is accepted and whose threshold is zero |
| `EmissionLoop.EmptyBlockIsAccepted` | src/protocol.rs:95-117 | A configuration without a symbol that the size computation accepts, with a threshold of zero |
| `EmissionLoop.FilledIsSorted` | src/receive/reblock.rs:81-102 | Sorting a batch into the open slots leaves a ring of the shape for which the loop's end is characterised, whatever the threshold |
| `Epoch.AcceptedIffInWindow` | src/receive/reblock.rs:85-98 | Within the stated distance, a packet is stored iff its block is one of the 127 from the current one on, in the slot of that block |
| `Epoch.NearIsExact` | src/receive/reblock.rs:85-98 | A range around the current block is judged rightly throughout iff it reaches no further than 129 back and 255 on |
| `Epoch.WindowRefinesEpoch` | src/receive/reblock.rs:81-128 | Batch by batch, the 8-bit ring and a window over unbounded block numbers emit the same blocks and end in the same state |
| `Epoch.AbsorbKeepsFaithful` | src/receive/reblock.rs:81-128 | Every block, emitted or waiting, holds exactly the accepted packets of that block, in arrival order |
| `Epoch.OfBlockHasAll` | src/receive/reblock.rs:81-100 | The packets of a block are all that arrived for it, each as often as it did, and no others |
| `Epoch.RunIsFaithful` | src/receive/reblock.rs:23-131 | The same over every run of batches in an epoch |
| `Epoch.EmittedIffReached` | src/receive/reblock.rs:102-128 | Over every run, block n has been emitted iff it and all earlier blocks of the epoch reached the threshold of accepted packets, and it consists of exactly those |
| `Dispatch.Dispatcher.Receive` | src/receive/dispatch.rs:57-114 | After any block, the queues are those that the list of events prescribes; after one that ends a transfer, this transfer is kept, and an earlier ended one is kept iff its worker has not gone and has, by the list of events, taken fewer blocks than its queue was given; no other block purges any |
| `Dispatch.Dispatcher.ReceiveStart` | src/receive/dispatch.rs:77-96 | A start block opens a new queue and supersedes an active transfer of the same client |
| `Dispatch.Dispatcher.Forward` | src/receive/dispatch.rs:87-114 | A block reaches its client's live queue or none; the transfer is forgotten iff the send fails or the block ends it |
| `Dispatch.Dispatcher.EndTransfer` | src/receive/dispatch.rs:98-114 | The transfer moves from the active to the ended ones; of the earlier ended ones exactly those stay whose worker has not gone and has not taken all of its queue |
| `Dispatch.Dispatcher.Loss` | src/receive/dispatch.rs:38-55 | Every live active queue gets one abort block, and no transfer stays active |
| `Demultiplex.QueueHolds` | src/receive/dispatch.rs:38-114 | For every list of events and every start block in it, its queue holds that client's blocks up to the first terminal one, loss (as one abort), new start, or end of the client's worker |
| `Demultiplex.QueueIs` | src/receive/dispatch.rs:38-114 | The same event by event: what closes a queue, whose data blocks it receives until then, and what its last block is |
| `Demultiplex.QueuesWellformed` | src/receive/dispatch.rs:71-114 | In every queue a start comes only first, a terminal block only last, and no heartbeat, unknown type or other client's block appears |
| `Demultiplex.DemultiplexIsInverse` | src/receive/dispatch.rs:67-114 | For every merge of any number of streams with heartbeats, each client gets exactly one queue and it holds exactly its stream |
| `Demultiplex.OfHasAll` | src/receive/dispatch.rs:67-114 | A client's blocks in a merged sequence are all of its own that can be routed, each as often as it was sent, and no others |
| `Demultiplex.QueuesArePrefixes` | src/receive/dispatch.rs:38-114 | With losses and vanishing clients, every queue is an initial part of what arrived for its client, possibly followed by one abort |
| `Demultiplex.TracksNext` | src/receive/dispatch.rs:57-114 | The next block of the merged sequence keeps an open queue equal to its client's stream so far, and every closed one an initial part of it |
| `Demultiplex.TracksLoss` | src/receive/dispatch.rs:38-55 | After a loss any blocks may be missing: every queue is closed and an initial part of its client's stream, cut by an abort |
| `Demultiplex.WorkerBehind` | src/receive/dispatch.rs:92-96 | Wherever a client worker stops among any events, the other queues are as they would be, and its own is an initial part of it |
| `ReceiveClient.Run` | src/receive/client.rs:37-98 | What is written is a prefix of the payloads up to the first terminal block; a report is made only when all of them are written and flushed, and is success iff that block is an end; no report means a failed write, a timeout, an unknown type or no terminal block; with flush every data block is flushed before the next is written, without it nothing is before the report |
| `ReceiveClient.DeliveredIsPrefix` | src/receive/client.rs:37-94 | From a queue that is a prefix of a client's stream, or was cut by a loss, the bytes delivered are a prefix of the content, and all of it if success is reported |
| `ReceiveClient.LossIsReported` | src/receive/dispatch.rs:38-55 | After a loss, the client of every open queue has what was queued for it delivered and a failure reported |
| `Pipeline.NextIsSent` | src/receive/decode.rs:14-43 | What the decoders send next, if a block, is the block that is due: the next merged one, or with one decoder the next after those reported lost; never one from before a reset |
| `Pipeline.DecodedIsSent` | src/receive/decode.rs:11-20 | An emitted block that decodes yields the bytes that were encoded under its number: no slot mixes two blocks |
| `Pipeline.StepKeepsInv` | src/receive/mod.rs:192-195 | Every tame step of clients, encoders, link, reblocking, resets at any time, decoders, dispatcher and receiving clients keeps the invariant of the whole diode |
| `Pipeline.HarmlessIsExact` | src/receive/reblock.rs:50-79 | A reset keeps all queues in step with what the dispatcher is given next iff it skips or repeats no block of a transfer that what was sent leaves open |
| `EndToEnd.EndToEndSafety` | src/receive/client.rs:37-94 | In every run, with resets at any time, that keeps the three conditions of a tame step, what is delivered to a receiving client is a prefix of what its sending client read, and everything if success is reported |
| `EndToEnd.SendStream` | src/send/server.rs:20-37 | Serving a client at the sending end yields a stream that a system may carry: it holds the bytes read, and its blocks fit |
| `EndToEnd.WriteStream` | src/receive/client.rs:37-98 | The worker run on a queue of the receiver writes a prefix of what the sending client read, and all of it if it reports success |
| `Overtaking.FewFailuresIsExact` | src/receive/decode.rs:14-47 | For every number of decoders from 2 to 255 there is a run of a system that the programs build, without a reset and tame but for its 257 decoders and failures, that reports success to a client none of whose data was delivered |
| `SkippingReset.ResetCanDeceive` | src/receive/reblock.rs:28-79 | A run of a system that the programs build, with one idle decoder and no failure, tame but for one reset, that reports success for a transfer whose data blocks were lost |
| `StaleBlock.StaleBlockDeceives` | src/receive/decode.rs:22-47 | For every number of decoders from 2 to 255 there is a run of a system that the programs build, without failures and with a reset while no transfer is open, tame but for a block from before the reset that takes the turn, that reports success for a transfer whose data was not delivered |
| `NoPanic.DispatchNeverPanics` | src/receive/dispatch.rs:57-67 | In every run, whatever fails and whatever is reset, every block handed to the dispatcher is one that was sent, and its accessors are within bounds |
| `EndToEnd.EndToEndDelivery` | src/receive/client.rs:74-93 | In one epoch, once every block since the first has had enough packets accepted, none failed to decode, and the receiver is at rest, each client has exactly one queue, holding its stream; success iff its sender read to the end |
| `LosslessLink.NeverFailing` | src/receive/decode.rs:14-19 | When no packet is repeated, every block that reaches the decoders decodes, given that any `threshold` different packets suffice |
| `LosslessLink.NothingLostIsEnough` | src/receive/reblock.rs:81-128 | When no packet is lost, repeated or late, every block has its threshold of packets accepted |
| `LosslessLink.LosslessDelivery` | src/bin/diode-send.rs:191 | On such a link, with sizes built as the two programs build them, the receiver left to itself takes a bounded number of steps, and as soon as it can take no more, every client is served in full; nothing is assumed of acceptance or decoding |
| `LosslessLink.OwnStepsAreShort` | src/receive/decode.rs:9-58 | Left to itself the receiver takes a bounded number of steps, whatever failed or was reset |
| `LosslessLink.ComesToRest` | src/receive/dispatch.rs:21-38 | After an undisturbed run, some steps of the receiver bring it to rest |
| `LosslessRun.LosslessRunExists` | src/bin/diode-receive.rs:195 | For every amount of data and every number of decoders there is such a run, of a system that the programs build, after which the client is served |
| `FileProtocol.WriteHeader` | src/aux/file/protocol.rs:44-50 | The header's bytes in order, or a prefix of them when a write fails |
| `FileProtocol.ReadHeader` | src/aux/file/protocol.rs:52-74 | A success is the header at the start of the stream and leaves what follows it; a name that is not UTF-8 is refused before the rest is read; an unexpected end means that the header is cut |
| `FileProtocol.HeaderLayout` | src/aux/file/protocol.rs:44-50 | Where the fields of a header stand, each number least significant byte first, byte by byte |
| `FileProtocol.HeaderRoundTrip` | src/aux/file/protocol.rs:44-74 | Every header, with any UTF-8 name and any mode, parses back and leaves the rest of the stream untouched |
| `FileProtocol.HeaderRoundTripBack` | src/aux/file/protocol.rs:52-74 | What parses is exactly what would have been serialised, and its name is UTF-8 |
| `FileProtocol.FooterRoundTrip` | src/aux/file/protocol.rs:81-93 | Every 128-bit hash comes back through the footer |
| `FileProtocol.FooterLayout` | src/aux/file/protocol.rs:81-85 | The footer is the 16 bytes of the hash, least significant first |
| `FileProtocol.Utf8IsText` | src/aux/file/protocol.rs:52-59 | A name is accepted iff it is a sequence of encoded Unicode scalar values, each in its shortest form |
| `FileTransfer.SendFile` | src/aux/file/send.rs:86-137 | For every split of reads: header, the whole file, and a footer over updates that depend only on content and buffer size, with everything flushed; on an I/O failure, which is the only way to fail, a prefix of that |
| `FileTransfer.SendContent` | src/aux/file/send.rs:94-137 | The fill-then-write loop writes exactly the content and the footer |
| `FileTransfer.ReceiveFile` | src/aux/file/receive.rs:109-206 | For every stream and every split of reads, the file written and the answer are a function of the stream, and a success is flushed; only an I/O failure ends otherwise, with a prefix written |
| `FileTransfer.ReceiveContent` | src/aux/file/receive.rs:139-206 | The bounded loop takes exactly the announced number of bytes, or all there are, and nothing of the footer; the remaining count never underflows |
| `FileTransfer.FileRoundTrip` | src/aux/file/receive.rs:149-206 | For every header, content and pair of positive buffer sizes, the file received is the file sent; with hashing, it is refused iff the footer differs from the receiver's own hash |
| `FileTransfer.UpdatesAgreeIff` | src/aux/file/send.rs:107-134 | Two buffer sizes cut a content into the same hasher updates iff they are equal or both exceed it |
| `FileTransfer.UpdatesHoldContent` | src/aux/file/send.rs:107-134 | The updates of the hasher, concatenated, are the content, all of it; each but a shorter last one, written raw, is a whole buffer |
| `FileTransfer.UpdatesDiffer` | src/aux/file/receive.rs:149-164 | Two contents make the same updates iff they are equal |
| `FileTransfer.HashAgreement` | src/aux/file/receive.rs:179-189 | Hashing at both ends succeeds for every hash function iff the buffer sizes are equal or both exceed the file |
| `FileTransfer.AlteredFile` | src/aux/file/receive.rs:179-189 | With hashing at both ends, content replaced on the way by another of the same length is accepted under every hash function iff it is the same; otherwise `FileTransfer.AlteredIsHashed` gives the answer |
| `FileTransfer.LengthMismatch` | src/aux/file/receive.rs:141-189 | For every header length and every setting of hashing: a length up to the file's cuts the file there, and is accepted unless hashing finds the 16 bytes after the cut to differ from the hash of what was taken; a greater one is truncated, after taking footer bytes as content |
| `FileTransfer.InvalidFileSizeNeedsEmptyBuffer` | src/aux/file/receive.rs:166-177 | The length error is returned iff the receiver's buffer is empty, the header announces a positive length, and a footer's worth of bytes follows |
| `FileTransfer.CutStreamIsRefused` | src/aux/file/receive.rs:155-168 | A stream cut anywhere is refused as truncated, and the file left is a prefix of the one sent |
| `FileTransfer.BadNameIsRefused` | src/aux/file/protocol.rs:52-59 | A stream whose name is not UTF-8 is refused as such, with nothing written, whatever follows the name |
| `FileTransfer.Transfer` | src/aux/file/receive.rs:101-207 | Sending then receiving, with any failures and buffer sizes: an accepted file is the file sent, and whatever is written is a prefix of it |
| `FileOverDiode.SendOverDiode` | src/aux/file/send.rs:86-137 | What a client of the diode sends for a file is the header, file and footer, or an initial part of them where something failed |
| `FileOverDiode.ReceiveOverDiode` | src/aux/file/receive.rs:101-207 | In every tame run of the diode, a file accepted at the far end is the file sent, and whatever is written is a prefix of it |

## Left out

- Sockets, datagram batches, socket options and the UDP workers: the link is a step that delivers any batch of packets the encoders have put on it, in any order, any number of times or never.
- RaptorQ itself: encoding and decoding are two functions assumed to be `Pipeline.Sound`, that is, packets carry their block's number and decoding packets of one block yields that block or nothing; for `LosslessLink.LosslessDelivery` also `LosslessLink.Efficient`.
- The shutdown path, in which `ordering` sends its stop marker past the encoders: only the running pipeline is modelled.
- The instant between a decoder's unlocking and its notifying at a reset: the thread is taken to be idle, and its late notification shows as spurious wake-ups.
- Pipeline.StepKeepsInv: steps that are not tame; what they can do is shown by `Overtaking`, `SkippingReset` and `StaleBlock`.
- Packets further than 129 blocks behind the window's front or 255 ahead of it: some of them are misjudged, as `Epoch.NearIsExact` shows.
- Clocks: timeouts are steps that may happen at any time; heartbeat warnings and yielding are not modelled.
- The threads of `encoding.rs` and `decode.rs` are steps of a transition system, not methods, because every interleaving is quantified over; a thread's check of the turn and its going to sleep are one step, as the mutex makes them.
- The multiplexing semaphore, whose permits equal the thread count; the wrap-around of client numbers at 2^32, as clients are keyed by distinct numbers.
- Protocol.NewBlock: without data, a transfer length below 5 bytes, on which `Block::new` panics; `RaptorQ` lengths are never 1 to 7.
- Whether the RaptorQ library refuses a block without symbols when the encoding plan is made: `SourceBlockEncodingPlan::generate` is not part of this model.
- Protocol.NewRaptorQ: an MTU from 32 to 39, for which `RaptorQ::new` divides by zero; arithmetic wraps as in a release build, and lengths are converted to a 64-bit `usize`.
- Reblock.Worker.EmitWhileReady: a threshold of zero, for which the loop does not end (`EmissionLoop.GoesForever`), so that no method can state what it returns.
- Reblock.Worker.Receive: likewise a threshold of zero; and a batch has at least one datagram.
- The capacity of a vector made with a given capacity is taken to be exactly that as long as its contents fit, as `Block::new` relies on.
- The client-side hash of a stream, which is only logged, and log messages generally.
- Directories, permissions and the check that the file does not exist yet; `FileTransfer.ReceiveFile` starts with a file that could be created.
- The hash function of a file: an arbitrary function of the sequence of hasher updates, where a full buffer is hashed as a slice and a tail as raw bytes.
- Buffering inside writers: `written` is what has been accepted; a flush may fail.
- Command lines, CPU affinity, language bindings, and the length-prefix framing of UDP payloads.
