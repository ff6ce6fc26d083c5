# Verified model of the p2p input plugin

Chunks of a video stream arrive from peers in any order. A reorder buffer decides what is
played next, the payload of each played chunk goes into a circular byte buffer of 1 MiB, and
the player reads bytes out of it. Meanwhile peers offer each other chunks, accept offers and
send what was accepted. The project models these parts and proves what they promise.

Where the code departs from what it is for, the code is kept as it stands, a lemma gives a
concrete input on which the promise fails, and another says exactly when it holds. The
documented intent is modelled beside it and proved to keep the promise always.

| file | what it models |
|---|---|
| `Chunks.dfy` | chunks, their header and their payload |
| `VideoFormat.dfy` | the layout of a video chunk, and that its payload is what is played of it |
| `Ring.dfy` | the byte ring as a value: store, read pass, first-in first-out order |
| `RingRuns.dfy` | what either end of the ring does while the other waits, wait by wait and turn by turn |
| `Plugin.dfy` | the plugin object that owns the ring: writer with its wait, reader with its loop |
| `Residues.dfy` | ids and the slots they fall into |
| `Output.dfy` | the reorder buffer as written: deliver, flush, cleanup; invariants over runs |
| `OutputOrder.dfy` | exactly when the code as written keeps its state in order: ids rising, `playedChunk` the last of them, slots in the window |
| `OutputRises.dfy` | exactly when the ids it plays rise, wherever the rest is left |
| `OutputComplete.dfy` | exactly when the code as written plays a stream without a gap and leaves nothing behind |
| `OutputExamples.dfy` | short arrivals that show the difference |
| `OutputContext.dfy` | the output context object with its slot array and loops |
| `Window.dfy`, `WindowRuns.dfy` | the documented window policy and what it plays over whole runs |
| `WindowKeeps.dfy` | that the policy loses nothing, jumps beyond the window included |
| `WindowContext.dfy` | that policy in place, on the slot array |
| `Conformance.dfy` | exactly when the code as written does what the policy prescribes |
| `Pipeline.dfy` | policy, writer, ring and player in every interleaving |
| `Locks.dfy` | the bodies of the threads, their locks, and any number of them running on one ring |
| `LocksProgress.dfy` | which turns come to an end, and what ends the wait for room |
| `Offers.dfy` | the choice of ids from an offer |
| `SendQueue.dfy` | the queue of (peer, chunk) pairs to send |
| `Gossip.dfy` | any number of peers and a source exchanging offers, accepts and chunks |
| `GossipSteps.dfy` | what each step of that does, and how a chunk gets across |

Three departures matter most.

- The writer advances its put pointer by the size of the whole chunk, header included, when the
  payload goes in as one piece (`output_ffmpeg.c:639`), but copies and counts the payload only.
  `Store` has the advance as a parameter, so that one definition covers code and intent. The
  bytes of that write still arrive; those of the next one do not, as it starts too far on.
- A flush writes chunks without advancing `playedChunk`, and its second loop starts at slot 0
  even when the first stopped at a gap (`output_ffmpeg.c:265-268`, `301`). In-order chunks do not
  flush at all, and a chunk beyond the window is stored or dropped. The intended policy is the
  older algorithm that the source keeps (`output_ffmpeg.c:184-215`, `277-287`, `415-491`), behind
  the check at `output_ffmpeg.c:358`; its `firstChunk` is `playedChunk + 1`. Lines 281 and 425 of
  that algorithm call the current `buffer_free`, which does not advance `firstChunk`; the model
  has them call `buffer_free_original`, which does.
- The append to the send queue always reallocates one entry and counts each entry twice
  (`network.c:77-85`).

Details of the reading: `buffer_free` falls off its end after writing a chunk; its caller is taken
to see the 0 that its comment names. The cleanup passes a chunk where its callee takes a pointer
(`output_ffmpeg.c:317`); the chunk is taken to arrive. Chunks have the fields id and data, and
`size` is the length of the data. The local `transId` of the receive thread shadows the counter,
so accepts echo the id of the offer. Nothing shown adds a peer to the peer set
(`streamer.c:159`), in which case the queue's pairs are all unknown and a drain sends nothing.

What another thread does while a method waits is a parameter of the method. Timed waits end at
any time. A message of the peer protocol may be received at any time after it was sent, any
number of times, or never; the chunk buffer may refuse or drop chunks at will.

## Model

| member | source | states |
|---|---|---|
| VideoFormat.RoundTrip | output_ffmpeg.c:561-602 | of a chunk written as header, number of frames, that many records of 3 + 4 + 1 bytes, and payload, exactly the payload is played, whatever the frames |
| VideoFormat.VideoIsEncoded | output_ffmpeg.c:561-602 | every chunk that the writer takes for video has that layout |
| VideoFormat.StrangeIsSilent | output_ffmpeg.c:561-563 | of a chunk of type 0 nothing is played |
| Ring.StoreBytes | output_ffmpeg.c:634-645 | the one-piece and the two-piece copy change exactly the bytes from `put` on, around the end, and no other |
| Ring.StorePointers | output_ffmpeg.c:634-647 | from any ring in range: `get` stays, the count grows by the payload, `put` moves by the advance or around the end |
| Ring.StoreUnread | output_ffmpeg.c:634-647 | wherever `put` is: each byte unread after a store is the payload's byte that lies so far behind `put`, or else what lay there |
| Ring.StoreIntended | output_ffmpeg.c:610-647 | with room, and the advance that matches the count, no unread byte is touched: the unread bytes are those before followed by the payload, and the ring stays well formed |
| Ring.StoreIff | output_ffmpeg.c:634-647 | for any advance, and any ring in range: whatever `n` bytes are stored, they land right behind the unread ones exactly if there are none or `put` is where the unread bytes end |
| Ring.StoreSkew | output_ffmpeg.c:634-645 | a store in one piece moves `put` away from the end of the unread bytes by what it advances beyond the payload; a wrapped store keeps its distance |
| Ring.PassDequeues | input_p2p.c:143-165 | a read pass takes the oldest unread bytes, at most as many as asked for, and at least one if there is one; it keeps the distance of `put` from their end, whatever that is |
| Ring.TwoPassesSuffice | input_p2p.c:112-172 | with no writer in between, two passes give exactly the first k unread bytes, across the wrap |
| Ring.AsWrittenStepIff | output_ffmpeg.c:545-652 | the code as it stands does with the bytes of every chunk of this shape what a queue does exactly if the chunk has no payload or `put` is where the unread bytes end; reads always do |
| Ring.AsWrittenSkew | output_ffmpeg.c:634-645 | only a write in one piece moves `put` away from that place, by the chunk's offset |
| Ring.StaysInsideIff | output_ffmpeg.c:634-639 | `put` leaves the buffer exactly at a write in one piece with `put` plus the chunk's size beyond it |
| Ring.InsideIff | output_ffmpeg.c:634-639 | a whole run stays inside exactly if none of its writes is such a write |
| Ring.LeavesTheBuffer | output_ffmpeg.c:636-639 | a chunk of all but five bytes of the ring, a read of all of it and a one-byte chunk put it six bytes past the end |
| Ring.AsWrittenRunIff | output_ffmpeg.c:605-651 | a run from an aligned ring is a queue on bytes at every action, for every payload, and stays inside, exactly if no write overshoots and the offsets of the chunks stored in one piece before any write of a payload add up to a multiple of the ring's size |
| Ring.AsWrittenDelivers | output_ffmpeg.c:605-651 | over such a run the bytes read and the bytes left are those at first and the payloads written |
| Ring.AsWrittenLosesBytes | output_ffmpeg.c:636-639 | two one-byte chunks after start-up: the player gets the first byte and then a byte that was never written |
| Plugin.P2pInput.constructor | input_p2p.c:367-372 | the ring starts well formed and empty |
| Plugin.P2pInput.StorePayload | output_ffmpeg.c:634-647 | the store in place, in one piece or two |
| Plugin.P2pInput.ReadPass | input_p2p.c:143-165 | the read pass in place: pointer, count and the caller's buffer |
| RingRuns.WaitDrains | input_p2p.c:143-165 | passes made during any number of waits take the oldest bytes and lose none |
| RingRuns.RoomIff | output_ffmpeg.c:610-625 | a writer that waits until there is room finds it exactly if there is room after some of all the waits |
| RingRuns.ReadingAllMakesRoom | output_ffmpeg.c:610-625 | a wait in which the player reads all there is ends with room for any chunk that the ring can take |
| RingRuns.WritesAppend | output_ffmpeg.c:634-647 | what the writer stores while the reader waits is put behind the unread bytes, and the count says how much that is |
| RingRuns.WritesAll | output_ffmpeg.c:610-647 | all of it is stored if there is room for all |
| RingRuns.TurnIff | input_p2p.c:112-169 | a turn of the read times out exactly if nothing was there and nothing woke it, gets bytes exactly if there were any then, and hands out the next of the stream |
| RingRuns.ReadHandsOut | input_p2p.c:112-172 | turn by turn a read hands out the next bytes of the stream |
| RingRuns.ReadEnds | input_p2p.c:112-176 | it ends with all it was asked for, or in a turn that found the ring empty and that nothing woke |
| RingRuns.EnoughToRead | input_p2p.c:112-172 | with as many bytes in the ring as it is asked for it never times out |
| Plugin.P2pInput.WaitForRoom | output_ffmpeg.c:610-625 | from any ring in range, with what the player reads in each wait: the wait ends after the first wait that leaves room, or without room after the last; no byte is lost, and `put` keeps its distance from the end |
| Plugin.P2pInput.WriteChunk | output_ffmpeg.c:545-652 | as written, from any ring in range: the chunk is stored exactly if some of the waits leaves room, and after the first of them; the whole new ring; the payload is certain to follow the unread bytes exactly if it is empty or `put` was their end before the call, and then it does; how far `put` is off afterwards, and exactly when it leaves the buffer |
| Plugin.P2pInput.WriteChunkIntended | output_ffmpeg.c:545-652 | intended: stored exactly if some of the waits leaves room; bytes read meanwhile and bytes left are the bytes before and the payload, always |
| Plugin.P2pInput.ReadTurn | input_p2p.c:112-169 | one turn of the loop in place: what arrived, the wait and whether it timed out, the pass and the caller's buffer are those of such a turn |
| Plugin.P2pInput.Read | input_p2p.c:87-177 | the whole call, turn by turn: the caller gets the next bytes of the stream, all it asked for unless a turn found the ring empty and nothing woke it; the position counts them if the call did not time out, and else not at all |
| Plugin.TimeoutLosesPosition | input_p2p.c:129-134 | two bytes asked for and one there: it is handed out, the call times out, and the position does not count it |
| Output.OutOfBoundsIff | output_ffmpeg.c:308-322 | exactly when a delivery indexes slot -1: before anything was played, with the slot taken |
| Output.OutOfBoundsHappens | output_ffmpeg.c:393-411 | an early chunk received twice before the first chunk does that |
| Output.NeverOutOfBoundsAgain | output_ffmpeg.c:347-413 | once something was played no run of deliveries leaves the slot array |
| Output.DeliverInv | output_ffmpeg.c:347-413 | slots hold ids of their residue, no id and no playout position exceeds the maximum, and the maximum is the highest id that was not too old |
| Output.DeliverDrains | output_ffmpeg.c:347-413 | a delivery takes its chunk in at most once, never over an occupied slot, and otherwise only moves chunks from slots to the writer; a chunk whose slot is taken ends up nowhere that it was not before |
| Output.RunConserves | output_ffmpeg.c:289-413 | over any run: chunks ever stored are those written out of slots and those still there; the maximum never falls |
| Output.RunFromInit | output_ffmpeg.c:289-413 | from the start no stored chunk leaves its slot twice |
| OutputContext.Context.BufferFlush | output_ffmpeg.c:289-306 | both loops in place, and the flush never comes upon a missing chunk |
| OutputContext.Context.BufferFree | output_ffmpeg.c:224-269 | writes and clears an occupied slot, reports an empty one |
| OutputContext.Context.BufferCleanup | output_ffmpeg.c:308-338 | both loops in place, with the case that leaves the array |
| OutputContext.Context.DeliverChunk | output_ffmpeg.c:347-413 | deliver in place, keeping the slot invariant |
| OutputOrder.CleanupWithoutWrap | output_ffmpeg.c:308-322 | from any state in the window: writes exactly the occupied slots from the playout position to the given one, ids rising above all passed, `playedChunk` the last of them, and keeps the window |
| OutputOrder.CleanupKeepsOrder | output_ffmpeg.c:308-322 | if the ids written rose up to `playedChunk` before, they still do |
| OutputOrder.CleanupWrapped | output_ffmpeg.c:324-337 | from any state in the window: a wrapped cleanup writes rising ids and keeps the window exactly if it skips nothing or writes nothing |
| OutputOrder.FlushKeepsOrderIff | output_ffmpeg.c:289-306 | a flush keeps `playedChunk` the last chunk written exactly if it finds nothing |
| OutputOrder.PlayingIff | output_ffmpeg.c:347-413 | once something was played, a delivery keeps ids rising, `playedChunk` last and the slots in the window exactly if a guard on the state before holds |
| OutputOrder.WaitingIff | output_ffmpeg.c:347-413 | while nothing was written, a delivery stays in the slot array and either writes nothing or starts in order exactly if its guard holds |
| OutputOrder.DeliverKeepsOrderIff | output_ffmpeg.c:347-413 | both cases, for any value of `firstChunk`: exactly when that state in order is kept |
| OutputOrder.RunKeepsOrderIff | output_ffmpeg.c:347-413 | any run from the start completes with every state in order exactly if the guard holds at every delivery |
| OutputOrder.Overtakes | output_ffmpeg.c:301-305 | arrivals 0, 1, 3, 2 are played as 0, 1, 3, 2, whatever the chunks hold |
| OutputRises.DeliverRisesIff | output_ffmpeg.c:347-413 | after rising ids, a delivery completes with rising ids exactly if what it writes (its chunk, the two stretches of the flush, or the slots of the cleanup) rises from above the last id written |
| OutputRises.RunRisesIff | output_ffmpeg.c:347-413 | a whole run completes with all ids in rising order exactly if that guard holds at every delivery |
| OutputExamples.RisesOutOfOrder | output_ffmpeg.c:289-306 | ids may rise though `playedChunk` falls behind: 3 after 0, 2, 1 |
| OutputComplete.FlushWrites | output_ffmpeg.c:289-306 | a flush writes and clears the stretch of occupied slots behind the playout position and then the one from slot 0, and nothing else |
| OutputComplete.DeliverContiguousIff | output_ffmpeg.c:347-413 | after ids without a gap from the first chunk on, a delivery completes without leaving one exactly if what it writes, by a guard on the state before, goes on from the last id or is nothing |
| OutputComplete.RunContiguousIff | output_ffmpeg.c:347-413 | a run completes with all ids from the first chunk on and no gap exactly if that guard holds at every delivery |
| OutputComplete.RunEmptiesIff | output_ffmpeg.c:347-413 | the slots are empty at the end of a run exactly if, before the last delivery, it was to pass by empty slots or its flush to cover all occupied ones |
| OutputComplete.PlaysAllIff | output_ffmpeg.c:347-413 | from the start, for any deliveries: exactly the ids from one to another are played, in order, and no slot is left taken, exactly if both guards hold and these are the ids taken in |
| OutputComplete.CompleteIff | output_ffmpeg.c:347-413 | if they all arrive in the window, early or late, both guards alone decide: no chunk is lost |
| OutputExamples.EarlyArrival | output_ffmpeg.c:378-406 | with four slots, arrivals 0, 2, 1, 3 are played as 0 to 3 and leave nothing |
| OutputExamples.StaysIncomplete | output_ffmpeg.c:378-385 | without 3 behind it, 2 is not played |
| OutputExamples.LostBeyondWindow | output_ffmpeg.c:406-411 | with three slots, of the arrivals 1, 2, 0, 4, 2, 3 chunk 4 is lost, and no slot tells |
| Window.FlushOk | output_ffmpeg.c:277-287 | the older flush plays ids without a gap and leaves the next one missing |
| Window.MakeRoomOk | output_ffmpeg.c:423-429 | the older loop moves the window to where the new chunk fits, in order |
| Window.DeliverOk | output_ffmpeg.c:415-491 | the window policy keeps slots in the window and the log rising, and its exit on a foreign chunk is never reached |
| WindowKeeps.MakeRoomExact | output_ffmpeg.c:423-429 | making room plays every waiting chunk up to the given id and leaves the others in their slots |
| WindowKeeps.DeliverKeeps | output_ffmpeg.c:415-491 | no delivery loses a chunk that was played or waits, and one that is accepted is played or waits |
| WindowKeeps.DeliverHoldsIff | output_ffmpeg.c:415-491 | after a delivery exactly the ids are played or wait that did before, and the delivered one if it is not below the next to play |
| WindowKeeps.DeliverNext | output_ffmpeg.c:415-491 | the next to play is then the first id missing, counted from where it was or from where the window has to begin for the chunk |
| WindowKeeps.NothingLost | output_ffmpeg.c:415-491 | any run, jumps and duplicates included: what arrived in time for its turn is played in rising order if it lies below the next to play, and else waits |
| WindowKeeps.JumpPlaysWaiting | output_ffmpeg.c:423-429 | with four slots and 0 awaited, arrivals 1, 2, 6 play 1 and 2 |
| WindowContext.Context.BufferFree | output_ffmpeg.c:184-215 | the older free in place |
| WindowContext.Context.BufferFlush | output_ffmpeg.c:277-287 | the older flush loop in place, including its stop after a full turn |
| WindowContext.Context.FitChunk | output_ffmpeg.c:416-434 | making room in place |
| WindowContext.Context.DeliverChunk | output_ffmpeg.c:415-491 | the older deliver in place |
| WindowRuns.RunOk | output_ffmpeg.c:415-491 | any run, duplicates and jumps included: ids handed to the writer rise strictly |
| WindowRuns.PlaysUpToFirstGap | output_ffmpeg.c:415-491 | chunks in time, in any order: exactly the ids from the first up to the first one never delivered are played, the playout position is the last of them, and the slots hold exactly the later ones |
| WindowRuns.Complete | output_ffmpeg.c:415-491 | everything delivered, everything played in order, nothing left in the slots |
| WindowRuns.OrderIrrelevant | output_ffmpeg.c:415-491 | what is played does not depend on the order of arrival |
| Conformance.ConformsIff | output_ffmpeg.c:347-413 | the code as written does what the policy prescribes exactly if a guard on the state before holds |
| Conformance.FirstJumpIff | output_ffmpeg.c:368-375 | for a first chunk ahead of its turn it does exactly if there is one slot |
| Conformance.BeyondWindow | output_ffmpeg.c:393-411 | it never does for any other chunk beyond the window |
| Conformance.RunConformsIff | output_ffmpeg.c:347-413 | code and policy agree throughout a run exactly if the guard holds throughout |
| Pipeline.EndToEnd | output_ffmpeg.c:602-651 | in every interleaving: bytes read, bytes in the ring and payloads not yet stored make up the payloads of the chunks played, whose ids rise |
| Pipeline.PlayerGetsStream | input_p2p.c:87-177 | when all is read, the player has the stream up to the first chunk never delivered |
| Pipeline.NoMutualWait | input_p2p.c:112-169 | reader and writer never both wait, from any ring and with the advance of the code as written as well as the intended one, and while something is left one of them can move on without a timeout |
| Pipeline.OneGoesOn | output_ffmpeg.c:605-651 | from the start, with the intended advance, it can go on within the buffer, too |
| Pipeline.DrainsWithin | input_p2p.c:112-172 | from any reached state, while nothing is delivered and no wait times out, the threads take at most a given number of steps, and when they stop all that was played has been read |
| Locks.RingWritesDisciplined | output_ffmpeg.c:605-651 | writing any chunks to the ring, with the wait for room of each, keeps the lock order under the chunk buffer's mutex |
| Locks.BodyDisciplined | threads.c:44-363 | every turn of every thread locks upwards, waits only with its topmost mutex, touches data under its guard, and releases all |
| Locks.TurnShape | threads.c:44-363 | which mutexes each turn locks, in which order, which chunks it stores, and how often it changes what |
| Locks.TakeIsPass | input_p2p.c:143-165 | the player's step takes as many bytes as a pass over the ring, up to the end of the buffer, and leaves the pointer there |
| Locks.StoreIsWrite | output_ffmpeg.c:610-647 | the writer's step waits exactly while a write would, and adds what it adds |
| Locks.NoDeadlock | threads.c:64-358 | no reachable state of any number of threads has a cycle of threads that need each other's mutexes, whether to lock them or to come out of a wait |
| LocksProgress.NoProgressIff | output_ffmpeg.c:610-625 | a reachable state has no thread that can do anything but wake up in vain exactly if all turns are done, with every mutex free, or the receive thread waits for room, no player's turn is under way and everybody else is done or stopped at a mutex |
| LocksProgress.EveryScheduleSettles | threads.c:64-358 | under any schedule the turns under way come to such a state: apart from waking up in vain there is a bound on the moves |
| LocksProgress.WaitsHoldingChunkBuffer | threads.c:79-81 | it does happen: a full ring, nobody who reads, and the receive thread waiting with the chunk buffer's mutex held |
| LocksProgress.WaitsForEver | output_ffmpeg.c:610-625 | without a player's turn, whatever the other threads do, the wait does not end, the ring stays as full, and nobody else gets the chunk buffer's mutex |
| LocksProgress.PlayerFinishes | input_p2p.c:112-172 | from any state a player's turn can be completed by moves of its own and of whoever holds the ring's mutex, which need no other mutex |
| LocksProgress.EnoughPasses | output_ffmpeg.c:610-625 | while the writer stays at its wait, under any schedule, nobody else fills the ring, and as many passes of players as there are bytes missing make room for the chunk, if the ring can take it at all |
| LocksProgress.RoomComes | input_p2p.c:112-172 | from any state in which the writer waits, turns of a single player lead to room for the chunk, whatever mutexes the other threads hold |
| Locks.NoRace | threads.c:72-358 | with one receive thread no two threads are ever about to touch the same data with one of them writing, the stop flag apart |
| Locks.TwoReceiversRace | threads.c:119-127 | with two receive threads they are, since accepts read the chunk buffer without its mutex |
| Locks.StopFlagRace | threads.c:294-298 | the stop flag is raced for |
| Offers.SelectChunks | threads.c:154-177 | the loop over offered ids, with its counter and the global first chunk |
| Offers.ScanMeetsSpec | threads.c:159-177 | its result is the first ids, up to the limit, that are not held and not below the first chunk; an unset first chunk becomes the first id not held |
| Offers.ScanSafe | threads.c:159-177 | accepted ids are distinct, offered, not held and within the limit; a first chunk once set stays |
| Offers.ChunkBufferToBuffermap | network.c:92-102 | an offer lists each held id once |
| SendQueue.PeerChunks.Add | network.c:74-90 | intended append: the pair if the chunk is held, or -1 |
| SendQueue.PeerChunks.AddAll | threads.c:119-127 | the accept and the deliver loop |
| SendQueue.PeerChunks.Drain | network.c:104-134 | the drain loop sends in order what is still held for known peers and empties the queue |
| SendQueue.DrainSendsWhatWasAccepted | network.c:74-134 | each pair is sent once for each time it was accepted while held, if still held and its peer was known, however the chunk buffer changed |
| SendQueue.DrainSendsInOrder | network.c:74-134 | the pairs sent are exactly those of ids that were accepted while held, are still held, and whose peer was known, in the order of the requests and of the ids in them |
| SendQueue.AsWrittenIff | network.c:77-85 | as written a second append leaves the allocated entry, and a drain stays inside exactly if nothing was appended |
| Gossip.OneMessageEach | network.c:107-116 | a drain sends exactly one chunk message for each pair it takes, to its peer, with the held chunk, in order |
| Gossip.StepKeeps | threads.c:100-226 | every step of every peer keeps the invariant of messages, queues, buffers and output |
| GossipSteps.SendOfferDoes | threads.c:327-328 | an offer lists exactly the ids held, each once, with the limit 50 and the next transaction id |
| GossipSteps.ReceiveOfferDoes | threads.c:160-184 | it is answered by one accept with its id, of the first wanted ids up to its limit; an unset first chunk is set; nothing else changes |
| GossipSteps.ReceiveRequestDoes | threads.c:119-127 | an accept or deliver message appends a pair for each of its ids that is held, in its order, and does nothing else |
| GossipSteps.DrainDoes | network.c:104-134 | a drain empties the queue and sends one chunk message for each entry that is still held, to a known peer, in the order of the queue |
| GossipSteps.ReceiveDataDoes | network.c:198-200 | a chunk that arrives is in the chunk buffer unless that drops it, and in a slot or the log exactly if the output takes it or had it |
| GossipSteps.ChunkGetsAcross | threads.c:119-328 | from any reachable state, a peer that lacks a chunk gets it from one that holds it and knows it, by an offer, an accept, a drain and a chunk message |
| GossipSteps.ProducedIsPlayed | threads.c:119-328 | from the start, whatever chunk the source produces, any peer can get it so, and plays it |
| Gossip.AcceptsAnswerOffers | threads.c:149-184 | every accept carries the id of an earlier offer between the two peers, names only its chunks and at most 50 |
| Gossip.ChunksAreSolicited | network.c:104-128 | every chunk sent was named before in an accept or deliver message from its receiver, and is the source's chunk |
| Gossip.ChunksAreGenuine | network.c:170-208 | whatever a peer holds, keeps for playing or has played is the source's chunk of that id |
| Gossip.FirstChunkIsStable | threads.c:164-175 | a first chunk is set at most once and no accepted id lies below it |
| Gossip.SameIdIff | threads.c:327-328 | two offers of a peer share a transaction id exactly if a multiple of 65536 offers lie between them |
| Gossip.AcceptNamesItsOffer | threads.c:184-184 | up to 65536 offers of a peer, an accept answers the one offer that carries its transaction id: it came before, and the accepted ids are among its ids |
| Gossip.IdsComeRound | threads.c:327-328 | one offer more and an accept also carries the id of an offer that it does not answer, with the run that leads there |

## Left out

- WriteChunk: requires a chunk of type 0 or a video chunk whose frame table fits; for a first byte of 127 or more the code uses an uninitialised header size. A list of the player's passes bounds its waiting.
- Read: preview data is left out: its size is first read without having been set, and the comment and the replay branch disagree about it. What the writer stores meanwhile it stores with the intended advance; as written, `WriteChunk` says which of its bytes are certain.
- AsWrittenRunIff: once `put` has passed the end, at the point that `InsideIff` gives, nothing is said of what follows.
- WindowContext.Context.BufferFlush: frees as lines 184-215 do, where line 281 calls the current `buffer_free`.
- FitChunk: frees as lines 184-215 do, where line 425 calls the current `buffer_free`.
- OutputContext.Context.BufferFree: an empty slot is only reported; the request for the chunk and the skip after a timeout are not modelled, as `OutputContext.Context.BufferFlush` shows that no flush comes there.
- ConformsIff: speaks of states after something was played; for earlier states `WaitingIff` says when the order is kept.
- Chunks without data: their empty allocation may make the slot look free, and the writer would read a first byte that is not there.
- Add: models the intended append; the append as written is covered by `AsWrittenIff`.
- NoRace: takes one operation on shared data as one step, without a memory model below that.
- SameIdIff: the counter itself is unbounded; only its 16 bits on the wire are modelled.
- EnoughPasses: a chunk larger than the ring never fits; the writer waits for it for ever.
- The request and buffermap signals in the peer protocol; their locks are in `Locks.dfy`. `network_get_needed_chunks` is one comparison per id.
- `network_ask_for_chunk`, which uses a set that was never made, and the thread for secured login data, which is switched off.
- `p2p_plugin_read_block`, which drops what a short read returned.
- GRAPES (chunk buffer, id sets, peer sampler, sockets, message formats) is not part of this model; it appears as maps, sequences and messages.
- Releasing a peer's record on the first send to it, and all other memory management.
- Frame table values, which the writer computes and does not use; wall-clock time; MRL parsing, player callbacks, command line and build files.
