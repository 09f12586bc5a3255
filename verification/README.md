# libxs in Dafny

A model of the parts of libxs (Crossroads I/O) that carry its guarantees, with proofs.
`dafny verify dfyconfig.toml` checks everything.

libxs threads share nothing but command mailboxes and lock-free pipes. Six groups of
modules follow that structure:

- **Lock-free transport.** `YPipe` is the pipe of `src/ypipe.hpp` as interleaved atomic steps
  of one reader and one writer over positions, refining the indivisible queue of `UPipe`.
  `YQueue` puts the chunked memory of `src/yqueue.hpp` under it, with links, the spare chunk
  and freeing explicit. `Mailbox` adds any number of senders, the lock and the eventfd
  counter. `YPipeObject` is the pipe as an object.
- **Pipe protocol.** `PipeEnd` has the calls and command handlers of one end of a message
  pipe, `PipePair` runs two ends with their mailboxes and queues as one transition system in
  which everything the other thread can see is a step of its own. `PipeHandshake` proves the
  termination handshake with hiccups, `PipeFlow` and `PipeProgress` flow control and progress
  without them; `PipeHiccup` and `PipeTally` say exactly when a hiccup leaves termination stuck
  or a writer blocked; `PipeContents` follows the parts themselves. `PipeObject` is `pipe_t` as a class.
- **Prefix filter.** `Trie`, `TrieRemoval`, `TrieRemoveAll` and `TrieRuns` treat the
  subscription trie as a value and prove it against a plain map; `TrieObject` has the nodes on
  the heap, changed in place.
- **Distribution and scheduling.** `Dist` and `DistRuns`, `Fq` and `FqRuns` prove the
  partitioned arrays of `dist_t` and `fq_t`; `PtrArray`, `DistObject` and `FqObject` are the
  classes, with the back-pointers of `array_t`.
- **Ownership tree.** `Own` has the handlers of `own_t`, `OwnTree` and `OwnRuns` the
  distributed shutdown of any forest of objects, `OwnObject` the class.
- **Codec and publish/subscribe.** `Wire`, `Frames`, `Encoder`, `Decoder` and `Codec` are the
  framing in both directions over arrays, `StreamEngine` the two directions of an engine that
  moves its bytes; `XSub`, `PubSub` and `XPub` are subscription
  forwarding and matching, and `Forwarding` joins a publisher and any subscribers.

Classes are proved against functions (their `View` or `model` after a call is a function of the
one before), and the theorems about all runs are proved about those functions. `Crash`, `None`
or a dead object met stands for a failed assertion of the code, so that "no run fails" is a
statement about its assertions.

Where code and comments differ the model follows the code. The comment in `compute_lwm` asks
for a low watermark below the high one, which fails for 1. The comment in `has_in` says the
current position comes back to its old value if nothing is there; it becomes 0. `match` in
mid-message and `terminated` of the fair queue break their group in cases stated exactly by
`Dist.MatchKeepsIff` and `Fq.TerminatedKeepsIff`; `terminated` can also hand the rest of a
half-read message over to another pipe (`Fq.TerminatedUnseatsIff`), and the assertion in
`recvpipe` that a later part is there fails if its pipe has stopped being readable, as
`FqRuns.AbortsIffCut` says, which a pipe without delay on disconnection does
(`PipeProgress.StopsReadingIff`); the answer of `pfx_rm` is stated exactly by
`TrieRemoval.RmTrueIff`; `pf_unsubscribe_all` can leave a dead pipe subscribed exactly as
`XPub.XPub.Terminated` says. The test `maxmsgsize >= 0` is always true of the unsigned limit.

What is taken as given: atomics are sequentially consistent, counters do not wrap, memory
does not run out, names of objects and queues are not reused, a command handler is not
interleaved with other code of its own thread, and a counted command is announced only to an
object that is alive at that moment.

## Model

| member | source | states |
|---|---|---|
| `PipeHandshake.EveryHandshake` | src/pipe.cpp:101-462 | From a new pipe pair, in every interleaving of calls, commands and hiccups of both ends: no assertion of the code fails, no freed queue is touched, nothing is on its way to a vanished end, an end has given up its outbound queue exactly when its single acknowledgement is on its way or taken, each vanished end took exactly one acknowledgement, and all queues are freed once both ends are gone |
| `PipeHandshake.InitInv` | src/pipe.cpp:29-71 | A freshly created pair satisfies the handshake invariant for all watermarks and delay flags |
| `PipeHandshake.StepKeeps` | src/pipe.cpp:101-387 | Every enabled step of one end succeeds and keeps the handshake invariant: who has sent and seen which termination command, and who owns which queue |
| `PipeHandshake.HandshakeSafe` | src/pipe.cpp:224-387 | Runs of any length from any state satisfying the invariant never fail |
| `PipeHandshake.HandshakeMeaning` | src/pipe.cpp:247-323 | What the invariant says in the protocol's terms: nobody writes to a vanished end, an end is without outbound queue exactly when terminating, double terminated or gone, and two vanished ends leave no queue |
| `PipeHandshake.OneAckEach` | src/pipe.cpp:290-323 | Over any run an end takes one termination acknowledgement if it vanishes during the run, and none otherwise |
| `PipeHandshake.FreedForGood` | src/pipe.cpp:224-323 | A freed queue is never allocated or freed again |
| `PipeHandshake.RollbackDropsPartial` | src/pipe.cpp:178-189 | Rolling back removes exactly the unfinished message and never meets a part without the more flag |
| `PipeFlow.LwmInRange` | src/pipe.cpp:399-425 | The low watermark is half the high one, rounded up, up to 2048, and exactly 1024 below it above that; 0 exactly for no high watermark, and strictly below it exactly for high watermarks above 1 (the comment asks for this always) |
| `PipeProgress.EveryFlow` | src/pipe.cpp:101-222 | From a new pair, in every run without hiccups, for both directions: the writer is never more than the high watermark ahead of what it knows was read, no later part of a begun message is refused, a blocked writer with nothing unread has news on its way, a sleeping reader with something to read has exactly one wake-up on its way, and termination cannot come to rest half done |
| `PipeProgress.InitFlows` | src/pipe.cpp:29-71 | A new pair satisfies the flow invariant |
| `PipeProgress.RunFlows` | src/pipe.cpp:101-387 | Every run without hiccups succeeds and keeps the flow invariant in both directions |
| `PipeProgress.WatermarkBound` | src/pipe.cpp:125-176 | Read counts known to the writer, read counts of the reader and written messages are ordered, and unread whole messages never exceed the high watermark |
| `PipeProgress.NoPartRefused` | src/pipe.cpp:150-176 | Once a message's first part is in, an active end accepts the next part |
| `PipeProgress.NeverStalls` | src/pipe.cpp:125-222 | A writer blocked at the watermark has unread messages in the queue or a higher read count on its way |
| `PipeProgress.OneWakeUp` | src/pipe.cpp:191-211 | A sleeping reader with flushed items has exactly one wake-up sent or about to be sent |
| `PipeProgress.NotStuck` | src/pipe.cpp:247-387 | After a call to terminate, with no command on its way, both ends are gone or one is awake and pending with a flushed delimiter to reach |
| `PipeProgress.EveryEnding` | src/pipe.cpp:325-387 | From a new pair, after any run without hiccups in which somebody called terminate: every schedule of deliveries, unfinished calls and reads, in any order, makes at most a number of useful moves fixed by the state, and one that leaves no useful move has ended both ends and freed every queue |
| `PipeProgress.EverySchedule` | src/pipe.cpp:325-387 | The same from any state that satisfies the flow invariant |
| `PipeProgress.CanFinish` | src/pipe.cpp:325-387 | Such a schedule exists from every state after terminate |
| `PipeProgress.StopsReadingIff` | src/pipe.cpp:101-148 | An end with a part to read can no longer read it after a step if and only if that was a call to terminate, of an active end or without delay, or the peer's termination reaching an active end set not to delay; the part is still in the queue then and reading does nothing |
| `PipeContents.EveryContent` | src/pipe.cpp:101-245 | From a new pair, in every run with any hiccups, in both directions: the answers of read are a beginning of the parts whose write was answered with true, less those rolled back or dropped with a replaced queue, and with the queue's contents they are all of them; an end that met the delimiter has read them all; and a writer continues a message of which nothing is in its queue if and only if it processed a hiccup in mid-message since |
| `PipeContents.NothingLost` | src/pipe.cpp:101-203 | From a new pair, in every run without hiccups: what read answered at one end, followed by the queue, is what the other wrote less what it rolled back, and an end that met the delimiter has read every part of it |
| `PipeContents.StepCarries` | src/pipe.cpp:101-387 | Every step keeps this account of both directions |
| `PipeContents.HiccupTears` | src/pipe.cpp:224-245 | A six-step run in which the reader gets the second part of a message alone |
| `PipeHiccup.StuckIff` | src/pipe.cpp:224-387 | From a new pair, in every run with any hiccups: at rest after a call to terminate, the two ends are stuck (neither gone nor with a delimiter to read) if and only if one of them is pending and the other processed a hiccup after it had terminated, which is a fact about the run and not about the state |
| `PipeHiccup.StepHiccups` | src/pipe.cpp:101-387 | Every step, hiccups included, keeps what that needs: replacement queues not yet announced are empty, the delimiter of a terminated end is there unless its queue was replaced since, and a sleeping reader with flushed items has at least one wake-up coming |
| `PipeHiccup.StuckForGood` | src/pipe.cpp:101-323 | No run of deliveries, unfinished calls and reads leads out of a stuck pair |
| `PipeHiccup.TerminateFrees` | src/pipe.cpp:325-371 | Terminating the pending end without delay does: two deliveries later both ends are gone and every queue is freed |
| `PipeHiccup.HiccupLosesDelimiter` | src/pipe.cpp:224-245 | A six-step run into a stuck pair: the delimiter is in the queue that a hiccup replaces |
| `PipeTally.StallsIff` | src/pipe.cpp:125-245 | From a new pair, in every run with any hiccups, for both directions: an active writer with nothing unread in its pipe and nothing on its way to it is refused if and only if the whole messages dropped by the hiccups it processed and those read since the last notification add up to its high watermark; so never, if none were dropped; and each end keeps the high watermark it was given |
| `PipeTally.RunTally` | src/pipe.cpp:125-245 | Conservation with hiccups: messages unread, dropped with replaced queues and read are together the messages written, over every run |
| `PipeTally.StallForGood` | src/pipe.cpp:125-245 | A writer refused in that position is refused ever after, whatever both ends do |
| `PipeTally.HiccupJams` | src/pipe.cpp:224-245 | A four-step run into that position, at watermark one |
| `PipeObject.Pipepair` | src/pipe.cpp:29-51 | Creates the two ends of the initial state of the transition system, crosswise on two empty queues, each with its own high watermark and delay flag and the low watermark that goes with the other's |
| `PipeObject.Pipe.constructor` | src/pipe.cpp:53-71 | A new end is active in both directions with the low watermark computed from the inbound high watermark |
| `PipeObject.Pipe.CheckRead` | src/pipe.cpp:101-123 | True exactly if the end is active in that direction, active or pending, and the first visible item is a message, and then nothing changes; a delimiter is consumed and starts termination |
| `PipeObject.Pipe.Read` | src/pipe.cpp:125-148 | Answers the first visible item exactly if the end is active in that direction, active or pending, and that item is a message, and removes it; whole messages are counted, and the peer is notified exactly at multiples of the low watermark |
| `PipeObject.Pipe.CheckWrite` | src/pipe.cpp:150-163 | True exactly if marked active, active, and not at the high watermark; at the watermark the mark goes |
| `PipeObject.Pipe.Write` | src/pipe.cpp:165-176 | Answers true exactly if writable; then the part is queued, unflushed, behind all that is there, and counted if it ends a message; a refused one changes nothing but the mark |
| `PipeObject.Pipe.Rollback` | src/pipe.cpp:178-189 | The loop takes back exactly the parts of the unfinished message |
| `PipeObject.Pipe.Flush` | src/pipe.cpp:191-203 | Unless the end has terminated, all whole messages become visible behind those that are, the unfinished one stays, and the peer is woken exactly if there were some and it slept |
| `PipeObject.Pipe.ProcessActivateRead` | src/pipe.cpp:205-211 | Makes a sleeping readable end readable again |
| `PipeObject.Pipe.ProcessActivateWrite` | src/pipe.cpp:213-222 | Records the peer's read count and unblocks an active writer |
| `PipeObject.Pipe.ProcessHiccup` | src/pipe.cpp:224-245 | Empties the old outbound queue, completely, and takes the new one |
| `PipeObject.Pipe.ProcessPipeTerm` | src/pipe.cpp:247-288 | An active end set to delay waits; any other gives up its queue and acknowledges; never in a state where the code asserts |
| `PipeObject.Pipe.ProcessPipeTermAck` | src/pipe.cpp:290-323 | The end vanishes, acknowledging first if it had terminated on its own; its inbound queue is emptied |
| `PipeObject.Pipe.Terminate` | src/pipe.cpp:325-387 | The whole call: the state change and command for each state and delay, the unfinished message dropped and the delimiter visible behind all whole messages, past the watermark, with a wake-up exactly if the peer slept; a second call does nothing |
| `PipeObject.Pipe.StopOutput` | src/pipe.cpp:325-371 | The first half of terminate: state change, commands and end of the outbound flow |
| `PipeObject.Pipe.PushDelimiter` | src/pipe.cpp:373-386 | The second half: unfinished parts are dropped and the delimiter is published |
| `PipeObject.Pipe.Delimit` | src/pipe.cpp:427-443 | Reading the delimiter delimits an active end and lets a pending one terminate |
| `PipeObject.Pipe.Hiccup` | src/pipe.cpp:445-462 | An active end gets a fresh empty inbound queue and tells the peer; any other end does nothing |
| `YPipe.EveryRead` | src/ypipe.hpp:44-165 | From a new pipe, in every interleaving of reader and writer: the items read are the first of those flushed, the flushed ones end with a complete item, and the shared word is NULL only when everything flushed was read |
| `YPipe.InitInv` | src/ypipe.hpp:44-53 | A new pipe satisfies the pointer invariant |
| `YPipe.NextInv` | src/ypipe.hpp:74-165 | Every atomic step keeps front <= r <= w <= f <= back, the shared word equal to w or NULL, NULL only with everything flushed read, and only incomplete items past f |
| `YPipe.Refines` | src/ypipe.hpp:74-165 | Step by step the pointer machine changes its contents and answers as an indivisible queue does; a failed compare-and-swap is a flush of a sleeping queue only once the store after it is made |
| `YPipe.LinearFifo` | src/ypipe.hpp:74-165 | In any run the reader gets exactly the items from where it stood, in order, and flushed items never change |
| `YPipe.NoHalfMessage` | src/ypipe.hpp:70-83 | Whatever the reader may still pop without looking again, and everything flushed, ends with a complete item |
| `YPipeObject.YPipe.constructor` | src/ypipe.hpp:44-53 | A new pipe is an empty queue whose reader is awake |
| `YPipeObject.YPipe.Write` | src/ypipe.hpp:74-83 | The item joins the unfinished message, or completes it |
| `YPipeObject.YPipe.Unwrite` | src/ypipe.hpp:91-98 | Takes back the last part of an unfinished message, and answers NULL exactly if there is none |
| `YPipeObject.YPipe.Flush` | src/ypipe.hpp:103-126 | All complete items become visible; the answer is false exactly if there were some and the reader slept |
| `YPipeObject.YPipe.CheckRead` | src/ypipe.hpp:129-150 | True exactly if something is flushed and unread; otherwise the reader is put to sleep |
| `YPipeObject.YPipe.Read` | src/ypipe.hpp:154-165 | Returns and removes the oldest flushed item, if any |
| `YPipeObject.YPipe.Peek` | src/ypipe.hpp:170-176 | The oldest flushed item, left where it is |
| `YPipeObject.YPipe.Drain` | src/pipe.cpp:224-245 | The reading loop ends with nothing visible left and the reader asleep |
| `YQueue.EveryQueue` | src/yqueue.hpp:52-164 | For every chunk size and every interleaving from a new queue on: no NULL or freed chunk is followed, no slot is read before it was written, and the values read are those of the pipe over plain positions |
| `YQueue.InitRel` | src/yqueue.hpp:52-61 | A new chunked queue stands for the empty pipe, for every chunk size |
| `YQueue.DistinctPlaces` | src/yqueue.hpp:96-164 | Live positions, the terminator and the slot after it have different addresses despite reuse of the spare chunk, so comparing pointers is comparing positions |
| `YQueue.FrontStored` | src/yqueue.hpp:83-94 | The front slot holds the value written for that position |
| `YQueue.Simulates` | src/yqueue.hpp:96-164 | Each step on chunks, the exchange of the spare chunk included, is a step on positions or none, and keeps every chunk owned exactly once |
| `YQueue.ChunksAreInvisible` | src/yqueue.hpp:96-164 | The same over runs of any length from any related states |
| `Mailbox.EveryMailbox` | src/mailbox.cpp:25-90 | From a new mailbox, with any number of senders and every interleaving: no assertion fails, the commands received and those left are exactly those sent, in order, a passive receiver has mail exactly when one signal is there or about to be sent, and there are never more than two signals |
| `Mailbox.InitInv` | src/mailbox.cpp:25-39 | The failed first read leaves a mailbox that satisfies the invariant |
| `Mailbox.NextInv` | src/signaler.cpp:405-422 | No step of anyone fails its assertion: taking the signal finds the counter at one or two, of which a second signal is put back, and the read after a successful wait finds a command |
| `Mailbox.SenderInv` | src/mailbox.cpp:54-62 | The senders' steps, with the signal sent outside of the lock, keep the invariant |
| `Mailbox.ReaderInv` | src/mailbox.cpp:64-90 | The receiver's reads succeed where the code asserts they do, and keep the invariant |
| `Mailbox.NoLostWakeup` | src/mailbox.cpp:54-90 | No wake-up is lost and none is left over in any run |
| `Mailbox.CommandsConserved` | src/mailbox.cpp:54-90 | What was there and what was sent is what was received and what is left, in order |
| `Trie.AddValid` | src/prefix_filter.cpp:83-172 | Adding keeps the canonical shape: live counts exact, no redundant node, tables with children at both ends |
| `Trie.AddSubs` | src/prefix_filter.cpp:83-172 | Adding counts one reference of the subscriber at the prefix and changes no other prefix or subscriber; it answers true exactly if nobody held the prefix |
| `TrieRemoval.RmValid` | src/prefix_filter.cpp:313-445 | Removing, with pruning and compaction from either side, keeps the canonical shape |
| `TrieRemoval.PruneChild` | src/prefix_filter.cpp:349-442 | Taking a child out and compacting changes no other child, whichever of the branches is taken |
| `TrieRemoval.RmSubs` | src/prefix_filter.cpp:313-445 | Removing takes one reference off the prefix and changes nothing else |
| `TrieRemoval.RmTrueIff` | src/prefix_filter.cpp:313-334 | The answer is true exactly if nobody holds the prefix afterwards and, unless it is empty, it or a longer one was held before: also for a prefix that was never subscribed |
| `TrieRemoval.RmOfStranger` | src/prefix_filter.cpp:313-334 | For instance for every proper prefix of the only one subscribed, whoever removes it |
| `TrieRemoveAll.RmAllValid` | src/prefix_filter.cpp:174-311 | Removing a subscriber everywhere keeps the canonical shape |
| `TrieRemoveAll.RmAllSubs` | src/prefix_filter.cpp:174-311 | Exactly one reference of the subscriber comes off every prefix that holds it, and nothing else changes |
| `TrieRemoveAll.RmAllReport` | src/prefix_filter.cpp:174-311 | The prefixes reported as unsubscribed are exactly those whose last reference vanished, with their exact bytes |
| `TrieRemoveAll.RmAllOnce` | src/prefix_filter.cpp:174-311 | No prefix is reported twice |
| `TrieRemoveAll.SubscriberGone` | src/prefix_filter.cpp:174-311 | A subscriber that held each prefix at most once is gone from all of them |
| `TrieRuns.RunRefinesMap` | src/prefix_filter.cpp:83-445 | After any sequence of add, rm and rm_all the trie is canonical and holds what a plain map from prefix to subscriber to count holds |
| `TrieRuns.HistoryForgotten` | src/prefix_filter.cpp:83-445 | Two histories that leave equal maps leave structurally equal tries |
| `TrieRuns.Canonical` | src/prefix_filter.cpp:47-172 | Canonical tries with equal contents have equal shape (the range start aside where there is no child) |
| `TrieRuns.RmUndoesAdd` | src/prefix_filter.cpp:313-445 | Removing what was just added leads back to the same trie, shape included |
| `TrieRuns.Match` | src/prefix_filter.cpp:487-531 | Each subscriber is signalled once for every subscribed prefix of the data, and nobody else |
| `TrieObject.PfxNode.constructor` | src/prefix_filter.cpp:52-58 | A new node stands for the empty trie |
| `TrieObject.PfxNode.Grow` | src/prefix_filter.cpp:98-147 | The table is widened on either side, from none, one child or many, without losing a child |
| `TrieObject.PfxNode.Add` | src/prefix_filter.cpp:83-172 | In place, on the heap, the node becomes the value-level result of adding, and answers alike; only its own subtree and new nodes are touched |
| `TrieObject.PfxNode.Rm` | src/prefix_filter.cpp:313-445 | In place, the node becomes the value-level result of removing, and answers alike |
| `TrieObject.PfxNode.PruneKid` | src/prefix_filter.cpp:349-442 | The searches and moves in the table amount to the value-level pruning |
| `TrieObject.PfxNode.RmAll` | src/prefix_filter.cpp:174-311 | In place, the node becomes the value-level result of removing everywhere, with the same report |
| `TrieObject.PfxNode.Sweep` | src/prefix_filter.cpp:228-262 | The loop over the table treats every child once and collects the new range of live children |
| `TrieObject.PfxNode.CompactTable` | src/prefix_filter.cpp:264-310 | The table shrinks to its live range, to a single child or to nothing; the asserted facts about the new range hold |
| `TrieObject.PfxNode.Match` | src/prefix_filter.cpp:487-531 | Walking the nodes signals each subscriber once for every subscribed prefix of the data, and nobody else |
| `TrieObject.PfxNode.SfMatch` | src/prefix_filter.cpp:563-596 | True exactly if some prefix of the data is subscribed |
| `Dist.AttachGroups` | src/dist.cpp:41-57 | A new pipe joins the active pipes, or only the eligible ones in mid-message; no other pipe changes its group |
| `Dist.MatchGroups` | src/dist.cpp:59-72 | An eligible pipe becomes matching, a passive one is ignored, eligible and attached pipes stay as sets; so do the active ones, and the order of the groups, unless the pipe became eligible in mid-message |
| `Dist.MatchBreaks` | src/dist.cpp:59-72 | Such a pipe: attached while a message is half sent and then matched, it makes the matching pipes outnumber the active ones |
| `Dist.MatchKeepsIff` | src/dist.cpp:59-72 | Matching keeps the order of the groups and the active set exactly if the pipe is not one that became eligible in mid-message |
| `Dist.ActivatedGroups` | src/dist.cpp:112-124 | A passive pipe becomes eligible, and active unless a message is half sent |
| `Dist.TerminatedGroups` | src/dist.cpp:79-110 | Removal through the three holes takes the pipe out of every group it was in, and nobody else out of any |
| `Dist.RefuseGroups` | src/dist.cpp:196-205 | The triple swap on a refused write takes the pipe out of all three groups and leaves the pipes before it in place |
| `Dist.DistributeGroups` | src/dist.cpp:149-189 | The loop that steps back on refusals tries every matching pipe exactly once; exactly those that refuse leave the groups |
| `DistRuns.EveryDistribution` | src/dist.cpp:41-210 | From an empty distributor, over every run of attach, activated, terminated, match and send: what each pipe was given is whole messages, cut off only where a write was refused, and no pipe gets a later part without the parts before it |
| `DistRuns.MultipartAtomic` | src/dist.cpp:126-189 | The same from any state satisfying the invariant |
| `DistRuns.StepKeeps` | src/dist.cpp:41-210 | Every legal operation keeps the partition and the state of every pipe's log |
| `DistRuns.EveryGroup` | src/dist.cpp:41-210 | From an empty distributor, over every run: the eligible pipes are exactly the attached ones that have not refused a part since they were attached or last activated, and the active ones are those of them that did not come since the current message began; so a pipe that never refused stays eligible until it terminates |
| `Dist.SendGroups` | src/dist.cpp:132-147 | Sending a part tries the matching pipes once each; exactly those that refuse leave the matching, active and eligible pipes, and after a last part every eligible pipe is active |
| `Dist.SendAllGroups` | src/dist.cpp:126-130 | The same for sending to all, beginning with the active pipes |
| `DistRuns.AllModeKeeps` | src/dist.cpp:126-130 | A socket that only sends to all keeps the matching pipes equal to the active ones in mid-message |
| `PtrArray.PipeArray.PushBack` | src/array.hpp:104-109 | Appends, and every item still knows its position |
| `PtrArray.PipeArray.Erase` | src/array.hpp:115-120 | The last item takes the hole and knows its new position, also when it is NULL |
| `PtrArray.PipeArray.Swap` | src/array.hpp:122-129 | Exchanges two items and their stored positions; the set of items stays |
| `DistObject.Dist.Attach` | src/dist.cpp:41-57 | In place, the array and counters become those of the value-level attach, with all back-pointers right |
| `DistObject.Dist.Match` | src/dist.cpp:59-72 | In place as the value-level match, found by the pipe's own back-pointer, with all back-pointers right for every pipe; the partition stays valid for all but those that joined in mid-message |
| `DistObject.Dist.Unmatch` | src/dist.cpp:74-77 | No pipe is matching afterwards, and the array is still a valid partition |
| `DistObject.Dist.Activated` | src/dist.cpp:112-124 | In place as the value-level activation |
| `DistObject.Dist.Terminated` | src/dist.cpp:79-110 | Moving the hole outwards with NULLs in between ends in the value-level removal, with all back-pointers right and no NULL left |
| `DistObject.Dist.MoveHole` | src/dist.cpp:85-92 | One of the three stages: the last pipe of the group fills the hole and leaves its own |
| `DistObject.Dist.Write` | src/dist.cpp:196-210 | A pipe that accepts gets the part, flushed after a last part; one that refuses leaves all groups and gets nothing |
| `DistObject.Dist.Distribute` | src/dist.cpp:149-189 | The loop ends, every matching pipe is offered the part exactly once, and no other pipe is written to |
| `DistObject.Dist.SendToMatching` | src/dist.cpp:132-147 | Every matching pipe is offered the part exactly once; exactly those that refuse stop being eligible, and after a last part all eligible pipes are active |
| `DistObject.Dist.SendToAll` | src/dist.cpp:126-130 | All active pipes are offered the part exactly once; exactly those that refuse stop being eligible |
| `Fq.ScanGroups` | src/fq.cpp:71-118 | The loop deactivates only pipes with nothing to read and stops empty-handed exactly if no active pipe has anything; then no pipe is active and the current position is zero (the comment in has_in says it comes back to its old value) |
| `Fq.DeactivateWithin` | src/fq.cpp:104-109 | Swapping out the current pipe never takes another pipe further from its turn |
| `Fq.ServedWithin` | src/fq.cpp:94-103 | A whole message from another pipe brings a waiting pipe at least one closer to its turn |
| `Fq.TerminatedKeepsIff` | src/fq.cpp:47-57 | Removal keeps the active pipes, less the leaver, exactly if the leaver was passive, was the last active one, or all pipes were active |
| `Fq.TerminatedLosesActive` | src/fq.cpp:47-57 | Three pipes, brought by operations to a state in which removal deactivates one pipe and activates another |
| `Fq.TerminatedUnseatsIff` | src/fq.cpp:47-57 | Removal takes the turn away from the current pipe exactly if that is the one that leaves, or it stands last among the active pipes and an active one leaves, unless the leaver is the first and all are active; in mid-message `more` stays set, so the rest is read from another pipe |
| `Fq.TerminatedUnseatsBystander` | src/fq.cpp:47-57 | Three pipes, brought by operations to a state in which a half-read pipe loses its turn because another one leaves |
| `FqRuns.RunsInOrder` | src/fq.cpp:40-142 | In every run of attach, activated, arrivals, pipes that stop being readable, removals, recv and has_in from the start, as long as no removal in mid-message takes the turn away from the half-read pipe: the parts of a message come out together, and each pipe's parts come out in order with none lost or doubled |
| `FqRuns.AbortsIffCut` | src/fq.cpp:71-118 | After every such run, the assertion that a later part is fetched without blocking fails at a recv if and only if the pipe of the half-read message stopped being readable after its last part was handed out, which is a fact about the run |
| `FqRuns.RunAbortsIff` | src/fq.cpp:71-118 | So a run fails an assertion if and only if some recv in it comes after such a cut |
| `FqRuns.CloseAborts` | src/fq.cpp:80-87 | A run of attach, a two-part message, recv, the pipe closing and recv that fails it |
| `FqRuns.TerminatedInvIff` | src/fq.cpp:47-57 | From every reachable state a removal keeps the invariant of the runs exactly if it does not take the turn away from a half-read pipe |
| `FqRuns.SplitsIff` | src/fq.cpp:47-118 | From every reachable state in mid-message: a removal and then a part handed out split the message if and only if the removal took the turn away |
| `FqRuns.RemovalSplits` | src/fq.cpp:47-118 | A run from the start in which a part of another pipe is handed out in the middle of a message |
| `FqRuns.StepInv` | src/fq.cpp:40-142 | Every step that succeeds, but for such a removal, keeps these |
| `FqRuns.RecvFailsIff` | src/fq.cpp:71-142 | Receiving comes back empty-handed, and has_in says no, exactly if no message is half read and no active pipe can be read |
| `FqRuns.NoStarvation` | src/fq.cpp:59-142 | From any reachable state, over any run without removals in which the pipe stays readable: before an active pipe with a message ready has a message finished, at most n - 1 whole messages of other pipes are handed out, n being the pipes attached at the end |
| `FqObject.Fq.Attach` | src/fq.cpp:40-45 | In place, the array and counters become those of the value-level attach |
| `FqObject.Fq.Terminated` | src/fq.cpp:47-57 | In place as the value-level removal, which keeps positions and bounds valid in every case |
| `FqObject.Fq.Activated` | src/fq.cpp:59-64 | In place as the value-level activation |
| `FqObject.Fq.RecvPipe` | src/fq.cpp:71-118 | The assertion fails exactly if a message is half read and the current pipe cannot be read; otherwise the loop ends where the scan ends, the part returned is the first of that pipe, and no other pipe is read |
| `FqObject.Fq.HasIn` | src/fq.cpp:120-142 | True exactly in mid-message or if the scan found a pipe; the array is as the scan leaves it |
| `OwnRuns.ShutdownSafe` | src/own.cpp:56-189 | In every run over any forest of objects: no assertion fails, every command and event finds its object alive, each object runs process_term at most once, and a destroyed object has no command on its way, waits for nothing, and every object it launched is gone and was heard |
| `OwnRuns.NothingLeft` | src/own.cpp:137-189 | When no command is on its way, an object that asked for termination or was told to terminate is gone, with everything below it |
| `OwnRuns.DeliveriesEnd` | src/own.cpp:56-189 | Delivering what is on its way takes at most a number of steps fixed by the state, in any order |
| `OwnRuns.QuietIff` | src/own.cpp:56-189 | Nothing is on its way exactly if no delivery is possible |
| `OwnRuns.ShutdownEnds` | src/own.cpp:91-189 | However deliveries are ordered, their number is bounded and, when they are done, every object that had called terminate, or was told to, is gone with its whole subtree |
| `OwnRuns.TerminateAsks` | src/own.cpp:114-130 | A call to terminate on a live object succeeds and puts it in that position |
| `OwnRuns.DeadIsGone` | src/own.cpp:173-189 | What it means to be destroyed |
| `OwnTree.StepKeeps` | src/own.cpp:56-189 | Every step succeeds and keeps the invariant: acknowledgements awaited are counted exactly, an owner outlives what it can still hear of a child and remembers a child until it tells it to terminate |
| `OwnTree.Settle` | src/own.cpp:173-189 | check_term_acks finds no owned child left, and destroys exactly the objects that wait for nothing |
| `OwnTree.TellKeeps` | src/own.cpp:91-112 | Telling children to terminate turns remembered children into awaited ones, one for one |
| `OwnTree.LaunchKeeps` | src/own.cpp:71-89 | A launched child is remembered, or told to terminate at once and awaited if its owner is shutting down |
| `OwnTree.HearAckKeeps` | src/own.cpp:159-171 | An acknowledgement finds its owner alive and waiting for it |
| `OwnObject.Own.CheckTermAcks` | src/own.cpp:173-189 | In place as the value-level handler: the owner is told and the object dies, or nothing happens |
| `OwnObject.Own.ProcessSeqnum` | src/own.cpp:62-69 | One more counted command processed, then the check |
| `OwnObject.Own.LaunchChild` | src/own.cpp:71-89 | The child is remembered, or told to terminate at once |
| `OwnObject.Own.ProcessTermReq` | src/own.cpp:91-112 | A remembered child is told to terminate; any other request is ignored |
| `OwnObject.Own.Terminate` | src/own.cpp:114-130 | A root terminates itself, any other object asks its owner, a terminating one does nothing |
| `OwnObject.Own.ProcessTerm` | src/own.cpp:137-152 | Every owned child is told to terminate, each once, and all are awaited |
| `OwnObject.Own.TellChildren` | src/own.cpp:142-144 | The loop sends one command to each owned child and to nobody else |
| `OwnObject.Own.UnregisterTermAck` | src/own.cpp:159-166 | One event less to wait for, then the check |
| `Wire.DigitsValue` | src/wire.hpp:87-140 | Reading back what was written in network order gives the value, for every width and every value that fits |
| `Wire.ValueDigits` | src/wire.hpp:87-140 | Writing back what was read gives the same bytes |
| `Wire.FirstWeighsMost` | src/wire.hpp:87-140 | Of any bytes the first weighs most, by a power of 256 for every byte after it |
| `Wire.PutUint16` | src/wire.hpp:87-91 | Writes the two bytes in network order and nothing else |
| `Wire.PutUint32` | src/wire.hpp:100-106 | Writes the four bytes in network order and nothing else |
| `Wire.PutUint64` | src/wire.hpp:117-127 | Writes the eight bytes in network order and nothing else |
| `Wire.GetUint16` | src/wire.hpp:93-98 | The positional value of the two bytes |
| `Wire.GetUint32` | src/wire.hpp:108-115 | The positional value of the four bytes |
| `Wire.GetUint64` | src/wire.hpp:129-140 | The positional value of the eight bytes |
| `Frames.OnTheWire` | src/encoder.cpp:58-102 | The bytes of every message: the length of flags and body in one byte up to 254, else after an escape in eight in network order, the flags with bit 7 cleared and nothing else changed, the body |
| `Frames.RoundTrip` | src/encoder.cpp:50-102 | Parsing the encoder's format gives back every list of messages that fit, bodies and more bits, with nothing left over |
| `Frames.ParseExtends` | src/decoder.cpp:55-162 | Any byte stream may be parsed in two pieces cut anywhere, with the same result |
| `Frames.PrefixParses` | src/decoder.cpp:55-162 | Any beginning of an encoded stream holds a beginning of the messages, and is never an error |
| `Encoder.Encoder.constructor` | src/encoder.cpp:28-37 | A new encoder has nothing to write |
| `Encoder.Encoder.PutHeader` | src/encoder.cpp:81-100 | One length byte for bodies below 254 bytes, else the escape and eight bytes, with the value of the body's length plus one, then the flags without the shared bit and otherwise unchanged |
| `Encoder.Encoder.MessageStep` | src/encoder.cpp:58-102 | Takes the next message of the session and makes its header pending; false exactly if there is none |
| `Encoder.Encoder.BodyStep` | src/encoder.cpp:50-56 | Makes the body pending |
| `Encoder.Encoder.GetData` | src/encoder.hpp:70-131 | For the supplied or the own buffer of any size, copied or handed out where it lies: the bytes returned are the next bytes of the encoded stream of the messages taken; false means that the session is empty and all was handed out, true that the buffer is full; without a supplied buffer a pending chunk that fills one is handed out where it lies |
| `Encoder.Encoder.CopyOut` | src/encoder.hpp:119-124 | Copying moves bytes from pending to handed out, and nothing else |
| `Decoder.Decoder.constructor` | src/decoder.cpp:32-42 | A new decoder waits for one byte |
| `Decoder.Decoder.GetBuffer` | src/decoder.hpp:72-90 | The place where the wanted bytes belong if they fill a buffer, else the own buffer |
| `Decoder.Decoder.ProcessBuffer` | src/decoder.hpp:96-143 | For bytes in the own buffer or already in place: all are processed, or those up to a refused message, or the stream or the session has failed; what was processed is an exact beginning of what was given |
| `Decoder.Decoder.OneByteSizeReady` | src/decoder.cpp:55-91 | Takes the escape, or the length of a body one less; dead exactly for a zero or too large length |
| `Decoder.Decoder.EightByteSizeReady` | src/decoder.cpp:93-134 | Takes the long length; dead exactly for zero or too large |
| `Decoder.Decoder.FlagsReady` | src/decoder.cpp:136-145 | Keeps the more bit and waits for the body |
| `Decoder.Decoder.MessageReady` | src/decoder.cpp:147-162 | The session is offered the body and its more bit; a message it takes is done with; one refused for now is kept; a failing session, and nothing else, kills the decoder |
| `Decoder.Decoder.TakenIsParsed` | src/decoder.hpp:96-143 | Whatever the pieces and refusals were: the session has taken exactly the messages the bytes processed hold, but for one it refused, and the decoder is dead only for a bad stream or a failed session |
| `Codec.EndToEnd` | src/decoder.hpp:96-143 | For an encoder and a decoder that has processed a beginning of what the encoder handed out: the session has taken a beginning of the messages, the decoder is dead only if the session failed, and once all bytes are processed and none is refused it has taken all |
| `StreamEngine.Outbound.OutEvent` | src/stream_engine.cpp:251-309 | What the socket takes, however little, continues what it took before, from wherever the encoder left it: bytes written and bytes handed out but not yet written are together all that the encoder handed out, and no message is lost; with room, it takes nothing only if every message of the session is written, and it is given all it can take or all that was handed out |
| `StreamEngine.Inbound.InEvent` | src/stream_engine.cpp:167-249 | As many bytes as there are are read, up to what the socket gives and what the decoder's place holds, and only when none are left to process. Bytes read to where the decoder wants them and bytes that a refusing session left: those processed and those still to be processed are together all that was read, with the rest of the stream untouched, and the engine closes exactly if the decoder is dead; something is read or processed, or the session answers, unless nothing is left to read or process or the session refuses for good |
| `StreamEngine.Handle` | src/stream_engine.cpp:167-309 | Whichever of two connected engines moves, or gets a message to send, the bytes written are those read and those between them, and every message is taken or still queued; a move that does anything lowers a rank, and an engine that does nothing is done |
| `StreamEngine.LinkedMeans` | src/stream_engine.cpp:167-309 | At any time the receiving session has taken a beginning of the messages, in order, with bodies and more bits, and the engine has closed only if that session failed; once both engines are idle and none is refused it has taken all |
| `StreamEngine.Transfer` | src/stream_engine.cpp:167-309 | So over every run of two engines, for all messages, sent before or during the run, buffer sizes, socket capacities, cuts and answers of the session, with zero-copy on both sides; and the events that do anything are bounded by the bytes to carry and the answers of the session |
| `StreamEngine.Deliver` | src/stream_engine.cpp:167-309 | After any events, rounds of any positive sizes come to an end, and the session has all the messages then, unless it failed or accepted, in all its answers, fewer than there are |
| `XSub.DecodeBytes` | src/xsub.cpp:136-163 | A subscription message is 0 and 1, or 0 and 2 to unsubscribe, the filter in two bytes, the higher first, and its argument as it is |
| `XSub.DecodeFailsIff` | src/xsub.cpp:136-163 | A message is malformed exactly if it has fewer than four bytes or another command, and otherwise consists of just the bytes of its command |
| `XSub.Encode` | src/xsub.cpp:197-219 | Exactly those bytes, which decode to the command they were made for |
| `XSub.XSub.constructor` | src/xsub.cpp:28-43 | Nothing is subscribed and no pipe is attached |
| `XSub.XSub.Send` | src/xsub.cpp:136-179 | Counts change by one for the key in question, with unknown unsubscriptions ignored and malformed messages refused; the message goes to all pipes exactly if the set of keys changed, and every pipe stays announced to |
| `XSub.XSub.Announce` | src/xsub.cpp:97-102 | One subscription message for every cached key, and nothing else |
| `XSub.XSub.AttachPipe` | src/xsub.cpp:85-103 | A new pipe that takes subscriptions has been written one message for each cached key |
| `XSub.XSub.Hiccuped` | src/xsub.cpp:122-134 | A hiccuped pipe is written one message for each cached key anew |
| `XSub.XSub.Terminated` | src/xsub.cpp:115-120 | The pipe is forgotten, the others stay announced to |
| `PubSub.Agreement` | src/xpub.cpp:123-217 | Let a pipe deliver messages that announce a set of keys, with anything of other pipes in between: no assertion of the publisher fails, and its prefix filter ends with exactly one reference of the pipe to each of those keys and to no other prefix |
| `PubSub.MatchesIffCached` | src/prefix_filter.cpp:487-531 | Then the pipe is signalled for a message if and only if some cached prefix matches it |
| `PubSub.HeedAgrees` | src/xpub.cpp:136-202 | One message keeps the agreement |
| `Forwarding.ReadingIsRun` | src/xpub.cpp:123-217 | The publisher's loop over an inbox of well-formed messages is taking them one after the other |
| `Forwarding.HearsSome` | src/xpub.cpp:123-217 | Reading any piece of what a subscriber wrote to a pipe makes the filters hold for that pipe just what has been announced up to there; it stops only at a filter the publisher does not know |
| `Forwarding.Network.Join` | src/xsub.cpp:85-103 | A subscriber connects, with what it has cached, to a publisher with any others connected: every link stays in agreement |
| `Forwarding.Network.UserSend` | src/xsub.cpp:136-179 | A user of any subscriber subscribes or unsubscribes: every link stays in agreement |
| `Forwarding.Network.Pass` | src/xpub.cpp:123-217 | The publisher reads any number of messages of one link: every link stays in agreement, and it fails only at a filter it does not know |
| `Forwarding.Network.Leave` | src/xpub.cpp:224-236 | A subscriber leaves, and since it held no prefix twice no subscription of it is left |
| `Forwarding.Network.Reconnect` | src/xsub.cpp:122-134 | A connection breaks and comes back: the publisher forgets the pipe, the subscriber announces its cache anew, and every link stays in agreement |
| `Forwarding.Network.Publish` | src/xpub.cpp:238-264 | The first part of a message is offered, once each, among the eligible pipes to exactly those whose subscriber has cached a prefix of it, for all links on which the publisher has read what was written |
| `XPub.XPub.constructor` | src/xpub.cpp:32-42 | No pipe and no filter |
| `XPub.XPub.AttachPipe` | src/xpub.cpp:87-121 | The pipe is handed to the distributor and the messages waiting on it are read; without any, its reference to the empty prefix, if it wants everything, is the only one that is new, and so it wants every message |
| `XPub.ImpliedMeans` | src/xpub.cpp:92-116 | A pipe that wants everything gets one reference to the empty prefix and so matches every message; no other reference changes |
| `XPub.XPub.ReadActivated` | src/xpub.cpp:123-217 | The loop reads until nothing is left or a message is malformed, changing the filters as those messages say, or stops at the one an assertion rejects; pipes with subscriptions stay attached ones |
| `XPub.ReadingFailsIff` | src/xpub.cpp:158-202 | An assertion fails exactly if the inbox has, after well-formed messages only, one for a filter not created by then that is unknown or unsubscribed from |
| `XPub.ReadingFails` | src/xpub.cpp:178-180 | For instance an unsubscription as the first message |
| `XPub.ReadingLeaves` | src/xpub.cpp:128-166 | What is left unread is exactly what follows the first malformed message, which is dropped |
| `XPub.XPub.Terminated` | src/xpub.cpp:224-236 | No dead pipe stays subscribed exactly if the pipe held no prefix twice |
| `XPub.GoneButSubscribed` | src/xpub.cpp:224-248 | In every state: a pipe that sends the same subscription twice and then leaves stays subscribed, and the next message with that prefix is signalled to it |
| `XPub.XPub.MatchPipes` | src/xpub.cpp:243-248 | Exactly the eligible pipes that hold a prefix of the message are marked as matching |
| `XPub.XPub.Send` | src/xpub.cpp:238-264 | The first part of a message is offered, once each, to exactly the eligible pipes that hold a prefix of it, a later part to exactly those that took the part before; exactly the pipes that refuse stop being eligible |

## Left out

- Pollers, sockets, the PGM engines, connecters and listeners, address resolution, clock, threads, the operating system side of the signaler: input and output, or foreign calls.
- Weak memory orders, allocation failure, counter wrap-around, 32-bit `size_t`.
- Message reference counts (`msg_t`): messages are values, or arrays of bytes in the codec.
- With hiccups, `process_hiccup` drops queued items with the old queue: what `PipeProgress` promises is about runs without them, and for runs with them `PipeHiccup.StuckIff` and `PipeTally.StallsIff` say exactly when termination and flow control come to a halt.
- The greeting, polling, disconnection and reconnection of a stream engine; a closed engine handles no events.
- The event sink of a pipe (`read_activated`, `write_activated`, `hiccuped`, `terminated`), identities and the protocol version of a pipe.
- Memory of trie nodes: `TrieObject` drops pruned nodes without freeing them; `pfx_close` and the report buffer's reallocation are not modelled. A single child is a table of one, not a union member.
- `yqueue_t`, `mailbox_t` and the signaler have no class form: every step of theirs that another thread can see is modelled, as a transition on values.
- A distributor's view of a pipe (`PtrArray.Pipe`) is whether it accepts, what was written and what there is to read; `DistRuns` and `FqRuns` say what the sockets owe these classes (a pipe is attached once, activated when passive, whole messages are flushed).
- FqRuns.NoStarvation: about runs without removals, since a removal can take a waiting pipe out of the active group (`Fq.TerminatedKeepsIff`) or move it back in the round.
- Several pipe arrays at once: a pipe has one back-pointer here, for the one array in question.
- The offset of the first message in a batch (`get_data`'s third argument), which only PGM uses; `GetData` with a supplied buffer is proved but not part of the runs of two engines, since only PGM supplies one.
- Addresses in the codec: bytes are in place exactly if they are in the array and at the position wanted; one buffer ending where another begins is not considered.
- XSub.XSub.Send: subscription commands are taken to be single-part and pipes to accept every write, as with the unlimited watermark that the socket sets; dropped subscriptions are not modelled.
- Subscriptions passed to the user of a publisher (`pending`, `xrecv`) and filters other than the prefix filter: the latter are only created and looked up.
- `lb_t`, which repeats the argument of the fair queue, REQ/REP, survey and session state machines, options, context and reaper, the topic filter, the zmq wrapper: wrappers, thread life cycle or easy members.
