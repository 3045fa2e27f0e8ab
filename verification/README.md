# A verified model of xShm

xShm carries messages between two Windows processes through a shared memory section: two overwrite-on-full byte rings,
a handful of auto-reset events, a handshake, a slot protocol for many clients, and a dispatch mode in which every
client gets a channel of its own. This project models those protocols in Dafny and proves what they guarantee.

`dafny verify dfyconfig.toml` checks everything.

## What is modelled

**The byte ring, one call at a time** (`Common`, `Frames`, `Ring`). `RingBuffer` is a class over the header words (32-bit
fields that wrap) and a 2 MiB byte array, with the loops and the order of stores of the code. Its methods assume nothing
about the header or the bytes. `Valid()` says that both hold exactly the ghost queue `queue`, and the contracts say that
each call is then the operation of a drop-oldest queue: a write appends its payload and evicts the least possible number
of oldest messages, a read returns the oldest one. Positions are unbounded in the specification (`head`), wrapped in the
fields. `Valid()` contains the parity of the `sequence` word. `discard_oldest` does not touch that word, so its parity
survives an eviction only because an eviction never empties the ring (`SurvivorBound`). A `compare_exchange` always
succeeds when a call runs alone, so here the retry loops run once. The check `total_required > capacity` can never hold
for the lengths that reach it and is omitted.

**The byte ring under interleaving** (`RingRace`, `RaceInvariant`, `RaceSafety`, `RaceSolo`, `RaceLoads`, `RaceReads`,
`RaceWrites`, `RaceWitness`). One
producer and one consumer in the same ring; every atomic operation is a step of its own and so is every byte copied, in
any order on either side. In particular the reader's loads of count and position are two steps, and so are the
evictor's `compare_exchange` and its `fetch_sub`. Steps of the two sides interleave freely.

*The one condition, attempt by attempt.* A read attempt is *backed* when a committed message lay at its loaded position as
its first byte was read. On a ring from which nothing was taken wrongly before, a backed attempt during which fewer than
2^32 bytes go by never goes wrong (`NoTornRead`, `CorruptedOnlyUnbacked`). An attempt that is not backed and ends in a
retry or in `Corrupted` leaves the ring intact, and all guarantees go on. Only a compare-exchange that succeeds for an attempt that is
not backed, or across a whole multiple of 2^32 bytes, makes a run `wild`. `LoadCanGoWrongIff` is the exact condition at
the load: the attempt it begins can still go wrong if and only if the position loaded is the end of everything committed.
Two bytes that happen to lie there decide how it ends when the reader is left alone (`AloneWithNothing`). With no legal
length there, `read_message` answers `Corrupted` on an intact ring (`StaleLoadReportsCorruption`), which in auto mode drops
the connection. With a legal length left over from an earlier connection, it delivers bytes that nobody sent, moves
`read_pos` past `write_pos`, and the count wraps below zero (`StaleLoadDeliversForeignBytes`). Both happen when an
eviction is suspended between moving `read_pos` and lowering `message_count` while the reader drains the rest.
`AtomicPairsAreNeverWild` shows that nothing of the kind happens when nothing falls between the two halves of an eviction
or between the reader's two loads.

A write of legal size can be given up under interleaving, with `MessageTooLarge` or `QueueEmpty`, when the reader empties
the ring between two of its steps (`WriteFailsOnlyWhenEmptied`). Both happen (`WriteCanEndTooLarge`,
`WriteCanEndQueueEmpty`). A write whose frame fits as it starts is never given up (`NeverGivenUp`). With the reader
between two attempts that is exact (`GivenUpIffNoRoom`), and `MessageTooLarge` takes a lack of bytes
(`TooLargeIffNoBytes`).

A read never comes back empty-handed unless it found the count at zero (`ReadEndsOnlyWhenEmptied`), and left alone it takes
the oldest message (`ReadSucceeds`); a write left alone does what a call on the queue does (`WriteOut`).

**Wakeups** (`Wakeup`, `WakeupRuns`). The worker's batches and its wait on the auto-reset data event, composed with the single steps
of `RingRace`. A read that answers `Corrupted` makes the worker leave the connection.

**Auto mode** (`Link`, `Auto`). `SendQueue`, `drain_commands`, `process_send_queue` and `process_receive_queue` over
`RingBuffer`, with ring calls atomic, against a ghost account of one direction of a connection: what was accepted, what
is staged, what lies in the ring, what was delivered, and the three statistics. A staged message of illegal size blocks
everything behind it: it goes back to the head after every failed write, until enough new commands displace it
(`ProcessSendQueue`, through `LegalPrefix`).

**Claiming slots** (`SlotScan`, `SlotOwnership`). Clients scanning slots concurrently by compare-exchange; and the life of
a claim: claiming, publishing the process id, releasing, crashing, orphan detection and its delayed handling. A claim
and its owner's process id are two stores. A server that looks between them sees the previous owner's id, and if that
process is dead it records the new, live claim for retirement. The comments in the code say that publishing the id right
after the claim rules this out; it does not. Nor is it confined to owners that have not published: an owner that lost its
slot this way can store its id late, over that of the next owner, and then die (`PublishedOwnerCanLoseItsSlot`).
`CondemnedByForeignWord` says when a live claim is recorded and whose id that takes, `RobbedIffAtRisk` is the exact
condition for each owner on its own, recorded before or not, and `UnpublishedOwnerCanLoseItsSlot` is a run that ends with two live clients on one
slot.

**A slot's life** (`Server`, `SlotLifecycle`). `SharedServer` and `ClientSlot` as classes, with the handlers that run under
the slot's lock. When setting the acknowledgement event fails, the handshake has already published READY and nothing
takes it back until the next disconnect or successful connect: the flags agree except in that case (`LifecycleHolds`).

**The handshake, store by store** (`Handshake`). Server and client programs interleaved at single stores, over
auto-reset events, for any number of connections with one client at a time, including the client's timeout and an
acknowledgement that cannot be set. The
repository's README promises that buffers are reset on each new connection. Without timeouts that holds
(`CleanStart`). After a timeout it need not: the server may complete the handshake of a client that has left, and the next
client takes the left-over acknowledgement and is handed messages sent before it entered `connect`
(`TimeoutLeavesAnAcknowledgement`). `FreshIffQuietStart` is the exact condition, as a property of the state in which a
client starts. Whatever times out, a connected client has the current generation and no ring holds anything older
(`AdoptsTheCurrentGeneration`, `StaysClean`).

**Dispatch** (`Dispatch`). The client map under all interleavings of registration threads, `disconnect_client`, the
channels' `on_disconnect` and the shutdown drain. A registration past its last check of `running` can enter the map after
the drain (`LateIffCleared`). The documentation of `stop` promises that no callback comes after it returns; such a client
stays in the map, and its notice comes when it leaves, after `stop` (`LateClientOutlivesStop`, `NoticeAfterStopIff`). A
client's disconnect notice can precede its connect notice, exactly when it is given between the client's entry into the
map and its announcement (`NoticesCrossIff`, `CanCrossIff`).

### Where the steps come from

The step functions have no contract of their own; the results in the table are about their runs.

- `RingRace.ProducerStep`: `src/ring.rs:140-175` (states `PDiscard…`) and `src/ring.rs:193-237` (the others).
- `RingRace.ConsumerStep`: `src/ring.rs:241-306`.
- `Wakeup.Do`: `src/auto/mod.rs:282-329` and `src/auto/mod.rs:442-483`; `src/server.rs:289-299`, `src/client.rs:140-147`.
- `SlotScan.Try`: `src/multi/mod.rs:1056-1077` inside the loop of `src/multi/mod.rs:1094-1113`.
- `SlotOwnership.Next`: `src/multi/mod.rs:413-461`, `src/multi/mod.rs:657-689`, `src/multi/mod.rs:1056-1090`.
- `Handshake.ServerStep` and `Handshake.ClientStep`: `src/server.rs:110-166`, `src/server.rs:259-279`,
  `src/layout.rs:18-27`, `src/client.rs:43-105`, `src/client.rs:167-186`.
- `Dispatch.Next`: `src/dispatch/mod.rs:227-238`, `src/dispatch/mod.rs:381-387`, `src/dispatch/mod.rs:511-556`,
  `src/dispatch/mod.rs:590-634`.

## Model

| member | source | states |
|---|---|---|
| Common.MaskIsRemainder | src/ring.rs:61-63 | masking a 32-bit position with 2^21 - 1 is its remainder modulo the capacity |
| Common.WrappedPositionsAreExact | src/ring.rs:56-59 | on positions that have wrapped any number of times, `wrapping_sub` is the true occupancy and equality of the words means an empty ring, as long as the occupancy is at most the capacity |
| Common.SameCell | src/ring.rs:61-63 | the cell named by a wrapped, masked position plus an offset is the true position modulo the capacity, because the capacity divides 2^32 |
| Common.WrappedSum | src/ring.rs:227-228 | advancing the wrapped word is wrapping the advanced position |
| Common.SizeLimits | src/constants.rs:13-16 | one byte is refused, two are taken, 65535 are taken, 65536 refused |
| Frames.OverlayAppends | src/ring.rs:209-220 | bytes laid down behind stored ones, wrapping at the buffer's end, extend them and damage none, as long as all fit in one lap |
| Frames.OverlayConcat | src/ring.rs:217-219 | writing two adjacent pieces in turn, each wrapping where it must, is writing their concatenation at once |
| Ring.RingHeader.Reset | src/layout.rs:18-27 | every ring word is zeroed, the generation is stored and the handshake word is idle |
| Ring.RingBuffer.Reset | src/ring.rs:52-54 | after a reset the ring is sound and empty whatever it held before |
| Ring.RingBuffer.CopyInto | src/ring.rs:70-78 | exactly the addressed bytes are replaced |
| Ring.RingBuffer.CopyIntoWrapped | src/ring.rs:108-121 | the storage becomes the cell-by-cell overlay of the data, split at the end of the buffer or not |
| Ring.RingBuffer.CopyFromWrapped | src/ring.rs:125-138 | byte k of the result is the cell k places on, modulo the capacity |
| Ring.RingBuffer.ReadU16 | src/ring.rs:95-101 | the little-endian number in two cells, which may straddle the end |
| Ring.FrameOverlay | src/ring.rs:209-220 | length, flags and payload written in turn at masked indices are one contiguous frame |
| Ring.RingBuffer.PutFrame | src/ring.rs:209-220 | the three copies put one whole frame at the write position |
| Ring.OldestFrame | src/ring.rs:250-281 | in a sound nonempty ring the length and payload cells a reader computes from the wrapped read position hold the oldest message, and the two positions differ |
| Ring.SpaceCheck | src/ring.rs:196-203 | the test on the header words decides exactly whether the message fits, and when it does not, more than one message is queued |
| Ring.FrameAppended | src/ring.rs:209-232 | frame, count, write position and sequence together turn a sound ring of q into a sound ring of q with the message appended |
| Ring.OldestTaken | src/ring.rs:291-302 | moving the read position by the oldest frame and lowering the count turns a sound ring of q into one of q without its oldest message |
| Ring.RingBuffer.DiscardOldest | src/ring.rs:140-175 | on any header: QueueEmpty exactly when the positions are equal, Corrupted exactly on an illegal length, otherwise the read position moves by the frame found and the counters move; on a sound ring exactly the oldest message goes, and soundness (with the sequence parity) survives if another message stays |
| Ring.RingBuffer.PublishFrame | src/ring.rs:209-237 | after the space check, the message is appended and all surviving messages are intact; `was_empty` is told from the old count |
| Ring.RingBuffer.WriteFitting | src/ring.rs:193-238 | the eviction loop ends on any header, an error says what stopped it and leaves the bytes alone, and on a sound ring it evicts the least number of oldest messages that makes room |
| Ring.RingBuffer.WriteMessage | src/ring.rs:177-239 | too short and too long are refused without a trace; every other payload is written, `overwritten` is the least sufficient eviction, the rest is kept in order, `drop_count` and `was_empty` are exact |
| Ring.RingBuffer.ReadMessage | src/ring.rs:241-306 | on any header: QueueEmpty exactly on a zero count, Corrupted exactly on an illegal length, otherwise the bytes and header words that follow; errors change nothing; a sound nonempty ring hands over its oldest payload and keeps the rest |
| Ring.Evicted | src/ring.rs:193-207 | the number of evictions of a write never exceeds the queue's length |
| Ring.EvictedIsLeast | src/ring.rs:193-207 | for every queue the ring can hold and every legal payload some number of evictions suffices, and Evicted is the one least such number |
| Ring.SurvivorBound | src/constants.rs:7-19 | a write that evicts anything leaves at least 30 older messages |
| Ring.SurvivorBoundIsTight | src/constants.rs:7-19 | with maximal messages exactly 30 can be left |
| RaceInvariant.CommitKeeps | src/ring.rs:222-228 | raising the count makes the copied frame a committed message behind all others |
| RaceInvariant.ByteKeeps | src/ring.rs:216-220 | a single byte written by the producer never touches a committed message that is still to be taken |
| RaceInvariant.EvictKeeps | src/ring.rs:163-168 | an eviction whose compare-exchange succeeds removes exactly the oldest message, even if the length it used was read long before |
| RaceInvariant.TakeKeeps | src/ring.rs:291-299 | a read whose compare-exchange succeeds removes exactly the message it copied |
| RaceInvariant.ProducerKeeps | src/ring.rs:140-239 | every producer step keeps the invariant of positions, count, bytes and histories |
| RaceInvariant.ConsumerKeeps | src/ring.rs:241-306 | every consumer step keeps it, retries and answers of Corrupted included, unless a compare-exchange succeeds for an attempt that was not backed or across 2^32 bytes |
| RaceSafety.Reachable | src/ring.rs:140-306 | every reachable state that is not wild satisfies the invariant |
| RaceSafety.NoTornRead | src/ring.rs:264-304 | whenever a backed read attempt completes within 2^32 bytes, the bytes copied one at a time are the whole payload of the oldest committed message nobody has taken, and only it is removed |
| RaceSafety.IndicesSplit | src/ring.rs:140-175 | what each side has taken is the log at an increasing list of places, all of its places and no others |
| RaceSafety.ExactlyOnceInOrder | src/ring.rs:140-306 | over every run reads and evictions together take each message exactly once in commit order; what was delivered is the log at the reader's places |
| RaceSafety.CountAndFrontier | src/ring.rs:222-228 | the count is the messages not taken plus the decrements under way and at most 500; `read_pos` passes `write_pos` only between the producer's two publishing stores and by exactly that frame |
| RaceSafety.CorruptedOnlyUnbacked | src/ring.rs:253-262 | the writer never answers Corrupted; the reader does so only in an attempt that was not backed or that 2^32 bytes overtook, and nothing else changes |
| RaceSafety.WriteFailsOnlyWhenEmptied | src/ring.rs:194-204 | a write of legal size is given up exactly when the loaded read position leaves no room but the count is zero, or when the evictor loads a read position equal to the write position; the reader has then emptied the ring, and log, bytes and positions are unchanged |
| RaceSolo.WriteAlone | src/ring.rs:193-238 | with room and the reader at rest a write runs to its end, appends its message and touches only its own cells |
| RaceSolo.DrainAlone | src/ring.rs:241-306 | the reader alone takes every committed message, wherever the writer is suspended |
| RaceSolo.WriteOut | src/ring.rs:193-238 | left alone from the top of its loop, whatever the reader was doing, a write evicts exactly the least number of oldest messages that makes room and appends its message, as a call on the queue does |
| RaceReads.ReadEndsOnlyWhenEmptied | src/ring.rs:244-297 | over every tame run a read comes back empty-handed if and only if it loads a count of zero at the top of its loop, every committed message then having been taken; an overtaken attempt is always begun again |
| RaceReads.ReadSucceeds | src/ring.rs:244-305 | from every reachable tame state with a read under way, its attempt backed or not begun, and a message committed, the reader's own steps end in taking the oldest message, however often it was overtaken |
| RaceWrites.NeverGivenUp | src/ring.rs:193-207 | a write whose frame fits as it starts is never given up, wherever the reader is and whatever it does |
| RaceWrites.GivenUpIffNoRoom | src/ring.rs:193-207 | with the reader between two attempts, a write can be given up if and only if its frame does not fit as it starts |
| RaceWrites.TooLargeIffNoBytes | src/ring.rs:199-203 | with MessageTooLarge if and only if its bytes do not fit; the message cap alone leads to QueueEmpty only |
| RaceWrites.DiscardEvictsExactlyOne | src/ring.rs:143-174 | whatever the reader does and however often the compare-exchange fails, discard_oldest returns Ok after evicting exactly one message, and fails having evicted none |
| RaceSafety.StaleReadIsSafe | src/ring.rs:193-220 | whatever read position the producer compared with, the cells it writes hold no message still to be taken |
| RaceSafety.RetriesArePaidFor | src/ring.rs:254-297 | reader retries never exceed evictions, and eviction retries never exceed reads |
| RaceSafety.ProducerDescends | src/ring.rs:143-207 | each producer step lowers a rank made of the messages left to remove and the progress of the attempt |
| RaceSafety.ConsumerDoesNotAscend | src/ring.rs:241-306 | no consumer step raises that rank |
| RaceSafety.WriteTerminates | src/ring.rs:193-238 | a write takes at most rank many steps of its own against any consumer |
| RaceSafety.WriteStepBound | src/ring.rs:193-238 | a whole call takes at most 501 rounds of at most 70004 steps |
| RaceLoads.BackedThroughout | src/ring.rs:245-297 | an attempt that is backed stays so, and the invariant with it, through every interleaving until it ends |
| RaceLoads.BackedEndsRight | src/ring.rs:253-299 | a backed attempt never ends in Corrupted or in anything but the oldest message |
| RaceLoads.AloneWithNothing | src/ring.rs:250-304 | with nothing committed at the loaded position the reader, left alone, answers Corrupted if the two bytes there are no legal length, and otherwise takes that many bytes as a message that does not exist |
| RaceLoads.WrongIffNothingCommitted | src/ring.rs:250-299 | at its first byte, an attempt can still go wrong in some interleaving if and only if nothing is committed at its position |
| RaceLoads.LoadCanGoWrongIff | src/ring.rs:245-250 | the same at the load itself, over all runs: exactly when the position loaded is the end of everything committed |
| RaceLoads.AtomicPairsAreNeverWild | src/ring.rs:163-169 | if nothing falls between the halves of an eviction or the reader's two loads and fewer than 2^32 bytes pass per attempt, the run stays tame and nobody ever answers Corrupted |
| RaceWitness.StaleLoadReportsCorruption | src/ring.rs:253-261 | some legal run ends with Corrupted reported although every message was taken intact and the ring is empty |
| RaceWitness.StaleLoadDeliversForeignBytes | src/ring.rs:264-302 | some legal run takes more messages than were committed, moves `read_pos` past `write_pos` with no write being published, and wraps the count |
| RaceWitness.WriteCanEndQueueEmpty | src/ring.rs:144-148 | some tame run ends a write of two bytes with QueueEmpty |
| RaceWitness.WriteCanEndTooLarge | src/ring.rs:200-203 | some tame run ends a write of the largest legal size with MessageTooLarge |
| Wakeup.AwakeKept | src/server.rs:289-299 | every step keeps: a worker not reading has a nonempty ring only with a wakeup set or still to be set |
| Wakeup.NoLostWakeup | src/auto/mod.rs:304-329 | in every interleaving, a worker about to wait or waiting on a nonempty ring has its wakeup on the way, and set once the writer rests |
| Wakeup.LeavesOnlyUnbacked | src/auto/mod.rs:298-303 | the worker gives the connection up only over a read attempt that was not backed or that 2^32 bytes overtook |
| Wakeup.SleepsOnlyWhenDrained | src/auto/mod.rs:556-600 | a worker that stays asleep with the writer at rest has been handed every message that was not overwritten |
| WakeupRuns.RestsIffEmpty | src/auto/mod.rs:567-599 | a step makes the worker rest if and only if its read loaded a count of zero |
| WakeupRuns.WorkerReads | src/auto/mod.rs:568-573 | one read of a batch takes one message and uses up one place of the batch |
| WakeupRuns.WorkerFinishes | src/auto/mod.rs:290-317 | from every reachable state with the writer at rest and the worker between reads or resting, its own moves, woken by nothing but the event, take every message and end asleep |
| WakeupRuns.TimeoutFinishes | src/auto/mod.rs:309-322 | a timeout of the wait does as well as the event |
| WakeupRuns.WakeupsArePaidFor | src/auto/mod.rs:309-317 | every wakeup by the event uses up one signal |
| WakeupRuns.SignalsAreEmptyWrites | src/server.rs:293-297 | the event is set once for every write that raised the count from zero and for no other |
| WakeupRuns.SleepsThroughAWrite | src/ring.rs:225-237 | some run has the worker asleep on a nonempty ring with the signal still due, the window NoLostWakeup is about |
| Link.AcceptConserves | src/auto/mod.rs:498-506 | accepting a command, displacing the oldest staged message when full, keeps order, conservation and the queue bound max(1, `max_send_queue`) |
| Link.SendConserves | src/auto/mod.rs:523-533 | writing the oldest staged message, with its evictions counted, keeps order and conservation |
| Link.ReceiveConserves | src/auto/mod.rs:568-573 | so does delivering the ring's oldest message |
| Link.EndToEnd | src/auto/mod.rs:492-600 | after any interleaving of the three: delivered, ring and staged together are a subsequence of what was accepted, accepted = displaced + staged + sent, sent = overflows + in the ring + received |
| Link.DeliveredInOrder | src/auto/mod.rs:492-600 | what was delivered is a subsequence of what was accepted, and nothing is missing if neither queue displaced anything |
| Auto.SendQueue.Push | src/auto/mod.rs:137-140 | appends at the tail |
| Auto.SendQueue.Pop | src/auto/mod.rs:142-145 | takes the head, if there is one |
| Auto.SendQueue.PushFront | src/auto/mod.rs:147-150 | puts a message back before all others |
| Auto.Direction.constructor | src/auto/mod.rs:243-255 | a fresh direction is in order and conserves |
| Auto.Direction.Stage | src/auto/mod.rs:501-505 | one command is accepted exactly as Accept says |
| Auto.DrainedOne | src/auto/mod.rs:500-506 | accepting one more command keeps: the staged messages are a suffix of old and new together, and nothing is displaced below capacity |
| Auto.Direction.DrainCommands | src/auto/mod.rs:492-512 | every Send in the channel is accepted in order, only the newest stay, and only a Shutdown clears the running flag |
| Auto.Direction.Write | src/server.rs:289-299 | succeeds exactly when connected and the size is legal, says NotConnected first and then which size limit is broken, evicts as the ring does, and sets the data event exactly when the ring was empty |
| Auto.Direction.Read | src/server.rs:301-311 | on any header answers what the connection, the count and the length found decide, and sets the space event exactly when a read leaves a count of zero; on a sound ring hands over the oldest message |
| Auto.Direction.SendNext | src/auto/mod.rs:523-543 | a failed write puts its message back at the head and changes nothing; a successful one is SendOne |
| Auto.LegalPrefix | src/auto/mod.rs:538-542 | the messages before the first illegal one |
| Auto.LegalPrefixUnique | src/auto/mod.rs:523-543 | that number is the only one with this property |
| Auto.SendMany | src/auto/mod.rs:523-543 | sending n messages removes the n oldest staged ones and leaves what was accepted and delivered alone |
| Auto.Direction.ProcessSendQueue | src/auto/mod.rs:514-545 | exactly the legal messages before the first illegal one are sent, none when not connected; it stops with an error iff something stays staged, and the error says why its head cannot be written; a write into an empty ring leaves the data event set |
| Auto.Direction.ProcessReceiveQueue | src/auto/mod.rs:556-600 | on any header waiting is skipped exactly when the batch was used up and the pass is fatal exactly when it stopped at Corrupted; on a sound ring the oldest min(ring, max(1, batch)) messages are delivered in order, never fatally |
| SlotScan.ClaimsArePrefix | src/multi/mod.rs:1092-1113 | at every moment of every interleaving the claimed slots are a prefix, every client that won a slot holds it, and no two hold the same one |
| SlotScan.EveryScanSucceeds | src/multi/mod.rs:1094-1113 | with at least as many slots as clients no scan fails |
| SlotScan.FinalSlots | src/multi/mod.rs:1094-1113 | when all scans are over, k clients hold exactly the slots 0 to k-1 |
| SlotScan.ScansAreShort | src/multi/mod.rs:1097-1107 | whatever the other clients do, a scan is over after at most one step more than there are slots |
| SlotScan.ClaimFreeSlot | src/multi/mod.rs:1094-1113 | alone, a scan claims the first free slot and nothing else; an error means all are taken (NoFreeSlot) or there is none (NotConnected) |
| SlotOwnership.Reached | src/multi/mod.rs:413-461 | every token in a slot, probe or record belongs to an attempt on that slot, over every run |
| SlotOwnership.RecordsWereSeen | src/multi/mod.rs:416-443 | every record of an orphan goes back to a moment at which the server read that very token off that connected slot |
| SlotOwnership.ReleasedOnlyRightly | src/multi/mod.rs:657-689 | over every run, a token that has left its slot was released by its own attempt, or retired by a handler whose record goes back to the server's reading of that very token off that slot |
| SlotOwnership.DisconnectedOnlyRightly | src/multi/mod.rs:665-682 | over every run, a slot is disconnected only by a handler whose recorded value is the claim's present value and goes back to the server's reading of it off that slot |
| SlotOwnership.TryWinsIffFree | src/multi/mod.rs:1064-1075 | trying a slot wins it if and only if its claim is free; otherwise nothing changes and the attempt can win any other free slot |
| SlotOwnership.LiveOwnersKeepTheirSlots | src/multi/mod.rs:430-442 | a live process keeps the slot it won until it releases it unless its own claim was recorded while it lived, whatever happened to others, and two such owners never share a slot |
| SlotOwnership.CondemnedByForeignWord | src/multi/mod.rs:433-441 | a live claim is recorded for retirement if and only if the server checks it against the id of a dead process; that id is never the owner's: the owner has not published yet, or an owner recorded before it published late |
| SlotOwnership.CondemnedCanBeRobbed | src/multi/mod.rs:657-684 | such a record can take the slot from its live owner in the very next step |
| SlotOwnership.RetiredIffAtRisk | src/multi/mod.rs:413-461 | detection and handling alone can free and disconnect a connected slot if and only if its claim is free, its owner word names a dead process, or its claim is recorded already, whether the owner lives or not |
| SlotOwnership.DeadOwnersAreRetired | src/multi/mod.rs:389-398 | so the connected slot of a crashed client that stored its id can always be won back |
| SlotOwnership.RobbedIffAtRisk | src/multi/mod.rs:413-461 | the same condition decides whether the server's own steps can take the slot from a live owner whose claim stands |
| SlotOwnership.UnpublishedOwnerCanLoseItsSlot | src/multi/mod.rs:1067-1074 | some run ends with two live processes holding the same slot |
| SlotOwnership.PublishedOwnerCanLoseItsSlot | src/multi/mod.rs:1067-1074 | some run takes the slot from a live owner that has published its id |
| Server.ControlBlock.constructor | src/layout.rs:42-53 | generation 1, both states idle, claim and owner empty |
| Server.SharedServer.CompleteHandshake | src/server.rs:130-165 | both rings end sound, empty and stamped with the next generation, both sides READY; `connected` follows the acknowledgement |
| Server.SharedServer.WaitForClient | src/server.rs:110-166 | Ok exactly for a server not connected with a request, HELLO and an acknowledgement that can be set, EventFailed exactly when only the last is missing; both leave clean stamped rings and READY everywhere; the three refusals leave rings and control block alone |
| Server.SharedServer.MarkDisconnected | src/server.rs:259-279 | everything is idle again; generation, claim, owner and the rings' contents stay |
| SlotLifecycle.ClientSlot.ReleaseSlotClaim | src/multi/mod.rs:377-380 | the claim is free |
| SlotLifecycle.ClientSlot.DoSlotHandshake | src/multi/mod.rs:564-613 | succeeds exactly when the server is not connected, HELLO is there and the acknowledgement can be set; with HELLO it leaves clean rings, the next generation and READY everywhere even if it cannot; the event is set exactly on success |
| SlotLifecycle.ClientSlot.HandleSlotConnect | src/multi/mod.rs:534-561 | a connect notice is due exactly on success, then with clean rings and the acknowledgement set; a failed handshake frees the claim, success keeps it; either forgets when the claim was seen |
| SlotLifecycle.ClientSlot.HandleSlotDisconnect | src/multi/mod.rs:620-640 | the slot is reset and freed; a notice is due exactly if it was connected |
| SlotLifecycle.ClientSlot.DisconnectClient | src/multi/mod.rs:285-307 | the same for a connected slot, and the client is signalled if the event can be set; nothing at all for any other |
| SlotLifecycle.ClientSlot.HandleOrphanedSlotDisconnect | src/multi/mod.rs:657-689 | acts exactly if the slot is connected and the claim still has the recorded value, and otherwise changes nothing |
| SlotLifecycle.ClientSlot.Reclaim | src/multi/mod.rs:416-459 | a connected slot is reported, never changed: exactly if its claim is free or its owner is found dead; only a claim of an unconnected slot seen by an earlier pass and expired since is freed; what the pass remembers is exact |
| SlotLifecycle.LifecycleHolds | src/multi/mod.rs:534-689 | over every order of handlers and calls `slot.connected` and the inner flag agree, READY agrees with both exactly unless the last acknowledgement failed, and connects minus disconnects is 1 if connected and 0 if not |
| SlotLifecycle.FlagsAgree | src/multi/mod.rs:534-689 | with working events the three flags always agree |
| Handshake.Reached | src/server.rs:110-166 | the handshake invariant holds over every interleaving of single stores |
| Handshake.AdoptsTheCurrentGeneration | src/client.rs:88-105 | when connect returns Ok, timeouts and failed acknowledgements or not, client, server and both headers agree on the generation and both rings hold only messages of it |
| Handshake.StaysClean | src/server.rs:130-141 | this stays so for as long as the client is connected |
| Handshake.ResetsAreUnobserved | src/server.rs:135-141 | the reset stores never meet a client that has adopted a generation |
| Handshake.CleanStart | src/client.rs:43-118 | without timeouts, failed acknowledgements or not, the generation is the one made for this client, one past that at its start; its own ring is empty and the other holds only messages sent since |
| Handshake.StartsAreQuiet | src/server.rs:120-166 | without timeouts every client starts with nothing left over, and during a handshake it does nothing but wait |
| Handshake.OpenMeansReady | src/server.rs:143-158 | without timeouts, while a connection is open on both sides all four state words say READY |
| Handshake.PublishedWhileIdle | src/layout.rs:24-26 | without timeouts, when the generation becomes visible no ring header says anything but IDLE |
| Handshake.FailedAckLeavesReady | src/server.rs:161-163 | a failed acknowledgement leaves a waiting server that still says READY |
| Handshake.AskedIsAccepted | src/server.rs:110-166 | from every reachable state with the server waiting and no client, whatever was left over, a client that asks can be accepted, and the connection is then open on both sides under the next generation |
| Handshake.NotifiedClientReconnects | src/auto/mod.rs:468-472 | a client told of the disconnect has used the notice up and can connect anew |
| Handshake.GivesUp | src/client.rs:58-86 | a timed-out or refused client takes its HELLO back out of every word |
| Handshake.NoHelloLeftBehind | src/client.rs:167-186 | over every run no client that gives up or is dropped leaves a HELLO behind |
| Handshake.DropFreesTheServer | src/client.rs:167-186 | when a client is dropped, its stores and the server's reaction to the event bring the server back to waiting with every state word idle |
| Handshake.FailureFreesTheServer | src/server.rs:259-279 | so does a server that gives the connection up, leaving the rings as they are |
| Handshake.MessagesArrive | src/server.rs:289-311 | on every open connection what one side puts in the other can take out, both ways |
| Handshake.FreshIffQuietStart | src/client.rs:56-88 | whatever timed out or failed before, every continuation connects the client to a generation newer than its start if and only if, at its start, no handshake is already published and no acknowledgement is pending at a server that says READY |
| Handshake.Finish | src/server.rs:130-164 | a handshake once begun runs to its end, acknowledgement included, without any step of a client |
| Handshake.Connects | src/client.rs:56-117 | a client that finds an acknowledgement and READY connects to the generation it finds, whoever they were meant for |
| Handshake.TimeoutLeavesAnAcknowledgement | src/client.rs:58-71 | some run hands a client messages that were in the ring before it entered connect |
| Dispatch.Reached | src/dispatch/mod.rs:545-553 | every inserted id is in exactly one place, over every run: the map, taken out and due, or notified |
| Dispatch.OneNoticePerClient | src/dispatch/mod.rs:598-634 | each id is notified at most once, only after it was inserted, and is then out of the map; no notice is lost on the way |
| Dispatch.FlagNeverBlocks | src/dispatch/mod.rs:611-620 | the `disconnected` flag of an entry in the map is never set, so it never refuses a removal |
| Dispatch.DrainIsComplete | src/dispatch/mod.rs:381-387 | after the drain, every id not inserted after it has been or is being notified |
| Dispatch.DrainTellsEveryone | src/dispatch/mod.rs:381-387 | everyone in the map when the drain begins has been told of the disconnect when it ends |
| Dispatch.OnlyOpenedClients | src/dispatch/mod.rs:521-553 | over every run only clients whose channel was opened enter the map, are announced or are reported disconnected |
| Dispatch.GivenUpStaysOut | src/dispatch/mod.rs:540-543 | a registration that is given up never enters the map and nobody is ever told of it |
| Dispatch.LateIffCleared | src/dispatch/mod.rs:540-553 | between the start of shutdown and the end of the drain, a registration can still enter the map after the drain if and only if it has passed its last check of `running` |
| Dispatch.NoticeAfterStopIff | src/dispatch/mod.rs:282-300 | once `stop` has returned, a client can still be reported disconnected if and only if a call that took it out of the map has its notice due, or it is in the map; and whoever is in the map entered it after the drain |
| Dispatch.LateClientOutlivesStop | src/dispatch/mod.rs:540-555 | some run lets `stop` return with an announced client in the map and no notice due, whose notice can only come later |
| Dispatch.NoticesCrossIff | src/dispatch/mod.rs:545-555 | over every run a client's disconnect is reported before its connect if and only if some notification of it falls between its entry into the map and its announcement |
| Dispatch.CanCrossIff | src/dispatch/mod.rs:521-555 | from any reachable state, for a registered client not yet notified, this can still happen if and only if its thread is, or can still get, between the two; its connect is then unannounced |
| Dispatch.NoticesCanCross | src/dispatch/mod.rs:545-555 | some run gives a client exactly these two notices, disconnect first |
| Dispatch.ClientMap.DisconnectClient | src/dispatch/mod.rs:227-238 | removes and notifies exactly if present, else NotConnected |
| Dispatch.ClientMap.OnDisconnect | src/dispatch/mod.rs:598-634 | removes and notifies exactly if present and not flagged |
| Dispatch.ClientMap.Drain | src/dispatch/mod.rs:381-387 | everyone in the map is notified exactly once and the map ends empty |

## Left out

- RaceSafety.NoTornRead: and the other results of RaceSafety and Wakeup end with the first compare-exchange that succeeds for an attempt that was not backed, or across a whole multiple of 2^32 bytes. `LoadCanGoWrongIff` is the exact condition of the former; no run through 2^32 bytes is constructed for the latter.
- RaceSafety.WriteStepBound: bounds the producer only; a reader can be made to retry for as long as the producer keeps evicting, which is what `RetriesArePaidFor` says.
- Ring.RingBuffer.WriteMessage: on a header that is not sound only its errors are stated, not what a successful write leaves.
- SlotOwnership.LiveOwnersKeepTheirSlots: the unconditional stores of `release_slot_claim` (timeouts of reservations, failed handshakes, disconnects) are not steps of that system; `SlotLifecycle` has them.
- SlotLifecycle.LifecycleHolds: handlers are atomic because they hold the slot's lock; what clients store in between appears as the arguments of the handlers.
- Handshake.CleanStart: one client at a time; two clients that overlap in `connect` on one channel are not modelled, and generations are unbounded.
- Link.EndToEnd: ring calls are atomic and one connection is followed; the send queue of the worker outlives a reconnect, the account does not.
- Wakeup.NoLostWakeup: sending by the same worker, the disconnect event and reconnects are not part of that system; a worker that left over Corrupted stays away.
- The store buffer of x86: steps are sequentially consistent. `sequence` and `drop_count` are in `Ring` only.
- Polling without events (`wait_for_client_noevent`), batched wakeups of the multi-client server (its receive batch relies on the poll timeout), and the multi-client sender.
- Clocks, thread start and join, timeouts as durations: they appear as free choices of a step or as arguments (`expired`, `ownerAlive`, `ackOk`).
- Random claim tokens and channel names: tokens are distinct and never reused; client ids are unbounded.
- Checks of magic and version, opening of sections, object names, NT system calls, the C interface, and struct layout.
- The registration codec of dispatch: a fixed layout whose round trip would add only easy members.
- `QueueFull`: the ring never returns it, so its branch in the send loop is not modelled.
